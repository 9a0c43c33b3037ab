/** The power and logarithm tables of GF(256) that the QR encoder carries, and the proof that they
    invert each other and follow the primitive polynomial x^8 + x^4 + x^3 + x^2 + 1. */
module GaloisTables {

  /** Entry `j` of a table row. The tables are decision trees, which the verifier evaluates cheaply. */
  function Pick<T>(j: int, x0: T, x1: T, x2: T, x3: T, x4: T, x5: T, x6: T, x7: T,
                   x8: T, x9: T, x10: T, x11: T, x12: T, x13: T, x14: T, x15: T): T
  {
    if j < 8 then
      if j < 4 then
        if j < 2 then (if j < 1 then x0 else x1) else (if j < 3 then x2 else x3)
      else
        if j < 6 then (if j < 5 then x4 else x5) else (if j < 7 then x6 else x7)
    else
      if j < 12 then
        if j < 10 then (if j < 9 then x8 else x9) else (if j < 11 then x10 else x11)
      else
        if j < 14 then (if j < 13 then x12 else x13) else (if j < 15 then x14 else x15)
  }

  /** The EXPONENT table. Entry 255 is 0 and no algorithm consults it. */
  function Exponent(i: nat): bv8 {
    if i < 128 then
      if i < 64 then
        if i < 32 then
          if i < 16 then
            Pick(i - 0, 1, 2, 4, 8, 16, 32, 64, 128, 29, 58, 116, 232, 205, 135, 19, 38)
          else
            Pick(i - 16, 76, 152, 45, 90, 180, 117, 234, 201, 143, 3, 6, 12, 24, 48, 96, 192)
        else
          if i < 48 then
            Pick(i - 32, 157, 39, 78, 156, 37, 74, 148, 53, 106, 212, 181, 119, 238, 193, 159, 35)
          else
            Pick(i - 48, 70, 140, 5, 10, 20, 40, 80, 160, 93, 186, 105, 210, 185, 111, 222, 161)
      else
        if i < 96 then
          if i < 80 then
            Pick(i - 64, 95, 190, 97, 194, 153, 47, 94, 188, 101, 202, 137, 15, 30, 60, 120, 240)
          else
            Pick(i - 80, 253, 231, 211, 187, 107, 214, 177, 127, 254, 225, 223, 163, 91, 182, 113, 226)
        else
          if i < 112 then
            Pick(i - 96, 217, 175, 67, 134, 17, 34, 68, 136, 13, 26, 52, 104, 208, 189, 103, 206)
          else
            Pick(i - 112, 129, 31, 62, 124, 248, 237, 199, 147, 59, 118, 236, 197, 151, 51, 102, 204)
    else
      if i < 192 then
        if i < 160 then
          if i < 144 then
            Pick(i - 128, 133, 23, 46, 92, 184, 109, 218, 169, 79, 158, 33, 66, 132, 21, 42, 84)
          else
            Pick(i - 144, 168, 77, 154, 41, 82, 164, 85, 170, 73, 146, 57, 114, 228, 213, 183, 115)
        else
          if i < 176 then
            Pick(i - 160, 230, 209, 191, 99, 198, 145, 63, 126, 252, 229, 215, 179, 123, 246, 241, 255)
          else
            Pick(i - 176, 227, 219, 171, 75, 150, 49, 98, 196, 149, 55, 110, 220, 165, 87, 174, 65)
      else
        if i < 224 then
          if i < 208 then
            Pick(i - 192, 130, 25, 50, 100, 200, 141, 7, 14, 28, 56, 112, 224, 221, 167, 83, 166)
          else
            Pick(i - 208, 81, 162, 89, 178, 121, 242, 249, 239, 195, 155, 43, 86, 172, 69, 138, 9)
        else
          if i < 240 then
            Pick(i - 224, 18, 36, 72, 144, 61, 122, 244, 245, 247, 243, 251, 235, 203, 139, 11, 22)
          else
            Pick(i - 240, 44, 88, 176, 125, 250, 233, 207, 131, 27, 54, 108, 216, 173, 71, 142, 0)
  }

  /** The LOG table. The entry of 0 is the marker 255. */
  function LogAt(i: nat): nat {
    if i < 128 then
      if i < 64 then
        if i < 32 then
          if i < 16 then
            Pick(i - 0, 255, 0, 1, 25, 2, 50, 26, 198, 3, 223, 51, 238, 27, 104, 199, 75)
          else
            Pick(i - 16, 4, 100, 224, 14, 52, 141, 239, 129, 28, 193, 105, 248, 200, 8, 76, 113)
        else
          if i < 48 then
            Pick(i - 32, 5, 138, 101, 47, 225, 36, 15, 33, 53, 147, 142, 218, 240, 18, 130, 69)
          else
            Pick(i - 48, 29, 181, 194, 125, 106, 39, 249, 185, 201, 154, 9, 120, 77, 228, 114, 166)
      else
        if i < 96 then
          if i < 80 then
            Pick(i - 64, 6, 191, 139, 98, 102, 221, 48, 253, 226, 152, 37, 179, 16, 145, 34, 136)
          else
            Pick(i - 80, 54, 208, 148, 206, 143, 150, 219, 189, 241, 210, 19, 92, 131, 56, 70, 64)
        else
          if i < 112 then
            Pick(i - 96, 30, 66, 182, 163, 195, 72, 126, 110, 107, 58, 40, 84, 250, 133, 186, 61)
          else
            Pick(i - 112, 202, 94, 155, 159, 10, 21, 121, 43, 78, 212, 229, 172, 115, 243, 167, 87)
    else
      if i < 192 then
        if i < 160 then
          if i < 144 then
            Pick(i - 128, 7, 112, 192, 247, 140, 128, 99, 13, 103, 74, 222, 237, 49, 197, 254, 24)
          else
            Pick(i - 144, 227, 165, 153, 119, 38, 184, 180, 124, 17, 68, 146, 217, 35, 32, 137, 46)
        else
          if i < 176 then
            Pick(i - 160, 55, 63, 209, 91, 149, 188, 207, 205, 144, 135, 151, 178, 220, 252, 190, 97)
          else
            Pick(i - 176, 242, 86, 211, 171, 20, 42, 93, 158, 132, 60, 57, 83, 71, 109, 65, 162)
      else
        if i < 224 then
          if i < 208 then
            Pick(i - 192, 31, 45, 67, 216, 183, 123, 164, 118, 196, 23, 73, 236, 127, 12, 111, 246)
          else
            Pick(i - 208, 108, 161, 59, 82, 41, 157, 85, 170, 251, 96, 134, 177, 187, 204, 62, 90)
        else
          if i < 240 then
            Pick(i - 224, 203, 89, 95, 176, 156, 169, 160, 81, 11, 245, 22, 235, 122, 117, 44, 215)
          else
            Pick(i - 240, 79, 174, 213, 233, 230, 231, 173, 232, 116, 214, 244, 234, 168, 80, 88, 175)
  }

  function Log(v: bv8): nat {
    LogAt(v as nat)
  }

  /** Multiplication by x modulo the primitive polynomial. */
  function Double(a: bv8): bv8 {
    (a << 1) ^ (if a & 0x80 != 0 then 0x1D else 0)
  }

  predicate Entry(i: nat) {
    Log(Exponent(i)) == i && Double(Exponent(i)) == Exponent(i + 1)
  }

  lemma Entries0()
    ensures Entry(0) && Entry(1) && Entry(2) && Entry(3) && Entry(4) && Entry(5) && Entry(6) && Entry(7)
  {
  }

  lemma Entries8()
    ensures Entry(8) && Entry(9) && Entry(10) && Entry(11) && Entry(12) && Entry(13) && Entry(14) && Entry(15)
  {
  }

  lemma Entries16()
    ensures Entry(16) && Entry(17) && Entry(18) && Entry(19) && Entry(20) && Entry(21) && Entry(22) && Entry(23)
  {
  }

  lemma Entries24()
    ensures Entry(24) && Entry(25) && Entry(26) && Entry(27) && Entry(28) && Entry(29) && Entry(30) && Entry(31)
  {
  }

  lemma Entries32()
    ensures Entry(32) && Entry(33) && Entry(34) && Entry(35) && Entry(36) && Entry(37) && Entry(38) && Entry(39)
  {
  }

  lemma Entries40()
    ensures Entry(40) && Entry(41) && Entry(42) && Entry(43) && Entry(44) && Entry(45) && Entry(46) && Entry(47)
  {
  }

  lemma Entries48()
    ensures Entry(48) && Entry(49) && Entry(50) && Entry(51) && Entry(52) && Entry(53) && Entry(54) && Entry(55)
  {
  }

  lemma Entries56()
    ensures Entry(56) && Entry(57) && Entry(58) && Entry(59) && Entry(60) && Entry(61) && Entry(62) && Entry(63)
  {
  }

  lemma Entries64()
    ensures Entry(64) && Entry(65) && Entry(66) && Entry(67) && Entry(68) && Entry(69) && Entry(70) && Entry(71)
  {
  }

  lemma Entries72()
    ensures Entry(72) && Entry(73) && Entry(74) && Entry(75) && Entry(76) && Entry(77) && Entry(78) && Entry(79)
  {
  }

  lemma Entries80()
    ensures Entry(80) && Entry(81) && Entry(82) && Entry(83) && Entry(84) && Entry(85) && Entry(86) && Entry(87)
  {
  }

  lemma Entries88()
    ensures Entry(88) && Entry(89) && Entry(90) && Entry(91) && Entry(92) && Entry(93) && Entry(94) && Entry(95)
  {
  }

  lemma Entries96()
    ensures Entry(96) && Entry(97) && Entry(98) && Entry(99) && Entry(100) && Entry(101) && Entry(102) && Entry(103)
  {
  }

  lemma Entries104()
    ensures Entry(104) && Entry(105) && Entry(106) && Entry(107) && Entry(108) && Entry(109) && Entry(110) && Entry(111)
  {
  }

  lemma Entries112()
    ensures Entry(112) && Entry(113) && Entry(114) && Entry(115) && Entry(116) && Entry(117) && Entry(118) && Entry(119)
  {
  }

  lemma Entries120()
    ensures Entry(120) && Entry(121) && Entry(122) && Entry(123) && Entry(124) && Entry(125) && Entry(126) && Entry(127)
  {
  }

  lemma Entries128()
    ensures Entry(128) && Entry(129) && Entry(130) && Entry(131) && Entry(132) && Entry(133) && Entry(134) && Entry(135)
  {
  }

  lemma Entries136()
    ensures Entry(136) && Entry(137) && Entry(138) && Entry(139) && Entry(140) && Entry(141) && Entry(142) && Entry(143)
  {
  }

  lemma Entries144()
    ensures Entry(144) && Entry(145) && Entry(146) && Entry(147) && Entry(148) && Entry(149) && Entry(150) && Entry(151)
  {
  }

  lemma Entries152()
    ensures Entry(152) && Entry(153) && Entry(154) && Entry(155) && Entry(156) && Entry(157) && Entry(158) && Entry(159)
  {
  }

  lemma Entries160()
    ensures Entry(160) && Entry(161) && Entry(162) && Entry(163) && Entry(164) && Entry(165) && Entry(166) && Entry(167)
  {
  }

  lemma Entries168()
    ensures Entry(168) && Entry(169) && Entry(170) && Entry(171) && Entry(172) && Entry(173) && Entry(174) && Entry(175)
  {
  }

  lemma Entries176()
    ensures Entry(176) && Entry(177) && Entry(178) && Entry(179) && Entry(180) && Entry(181) && Entry(182) && Entry(183)
  {
  }

  lemma Entries184()
    ensures Entry(184) && Entry(185) && Entry(186) && Entry(187) && Entry(188) && Entry(189) && Entry(190) && Entry(191)
  {
  }

  lemma Entries192()
    ensures Entry(192) && Entry(193) && Entry(194) && Entry(195) && Entry(196) && Entry(197) && Entry(198) && Entry(199)
  {
  }

  lemma Entries200()
    ensures Entry(200) && Entry(201) && Entry(202) && Entry(203) && Entry(204) && Entry(205) && Entry(206) && Entry(207)
  {
  }

  lemma Entries208()
    ensures Entry(208) && Entry(209) && Entry(210) && Entry(211) && Entry(212) && Entry(213) && Entry(214) && Entry(215)
  {
  }

  lemma Entries216()
    ensures Entry(216) && Entry(217) && Entry(218) && Entry(219) && Entry(220) && Entry(221) && Entry(222) && Entry(223)
  {
  }

  lemma Entries224()
    ensures Entry(224) && Entry(225) && Entry(226) && Entry(227) && Entry(228) && Entry(229) && Entry(230) && Entry(231)
  {
  }

  lemma Entries232()
    ensures Entry(232) && Entry(233) && Entry(234) && Entry(235) && Entry(236) && Entry(237) && Entry(238) && Entry(239)
  {
  }

  lemma Entries240()
    ensures Entry(240) && Entry(241) && Entry(242) && Entry(243) && Entry(244) && Entry(245) && Entry(246) && Entry(247)
  {
  }

  lemma Entries248()
    ensures Entry(248) && Entry(249) && Entry(250) && Entry(251) && Entry(252) && Entry(253)
  {
  }

  lemma EntryFrom0(i: nat)
    requires 0 <= i < 32
    ensures Entry(i)
  {
    hide *;
    if i < 8 {
      Entries0();
    } else if i < 16 {
      Entries8();
    } else if i < 24 {
      Entries16();
    } else {
      Entries24();
    }
  }

  lemma EntryFrom32(i: nat)
    requires 32 <= i < 64
    ensures Entry(i)
  {
    hide *;
    if i < 40 {
      Entries32();
    } else if i < 48 {
      Entries40();
    } else if i < 56 {
      Entries48();
    } else {
      Entries56();
    }
  }

  lemma EntryFrom64(i: nat)
    requires 64 <= i < 96
    ensures Entry(i)
  {
    hide *;
    if i < 72 {
      Entries64();
    } else if i < 80 {
      Entries72();
    } else if i < 88 {
      Entries80();
    } else {
      Entries88();
    }
  }

  lemma EntryFrom96(i: nat)
    requires 96 <= i < 128
    ensures Entry(i)
  {
    hide *;
    if i < 104 {
      Entries96();
    } else if i < 112 {
      Entries104();
    } else if i < 120 {
      Entries112();
    } else {
      Entries120();
    }
  }

  lemma EntryFrom128(i: nat)
    requires 128 <= i < 160
    ensures Entry(i)
  {
    hide *;
    if i < 136 {
      Entries128();
    } else if i < 144 {
      Entries136();
    } else if i < 152 {
      Entries144();
    } else {
      Entries152();
    }
  }

  lemma EntryFrom160(i: nat)
    requires 160 <= i < 192
    ensures Entry(i)
  {
    hide *;
    if i < 168 {
      Entries160();
    } else if i < 176 {
      Entries168();
    } else if i < 184 {
      Entries176();
    } else {
      Entries184();
    }
  }

  lemma EntryFrom192(i: nat)
    requires 192 <= i < 224
    ensures Entry(i)
  {
    hide *;
    if i < 200 {
      Entries192();
    } else if i < 208 {
      Entries200();
    } else if i < 216 {
      Entries208();
    } else {
      Entries216();
    }
  }

  lemma EntryFrom224(i: nat)
    requires 224 <= i < 254
    ensures Entry(i)
  {
    hide *;
    if i < 232 {
      Entries224();
    } else if i < 240 {
      Entries232();
    } else if i < 248 {
      Entries240();
    } else {
      Entries248();
    }
  }

  lemma EntryOf(i: nat)
    requires i < 254
    ensures Entry(i)
  {
    hide *;
    if i < 32 {
      EntryFrom0(i);
    } else if i < 64 {
      EntryFrom32(i);
    } else if i < 96 {
      EntryFrom64(i);
    } else if i < 128 {
      EntryFrom96(i);
    } else if i < 160 {
      EntryFrom128(i);
    } else if i < 192 {
      EntryFrom160(i);
    } else if i < 224 {
      EntryFrom192(i);
    } else {
      EntryFrom224(i);
    }
  }

  lemma Ends()
    ensures Exponent(0) == 1 && LogAt(0) == 255
    ensures Log(Exponent(254)) == 254 && Double(Exponent(254)) == 1
  {
  }

  /** Below 255 the tables invert each other and each power is the double of the one before it. */
  lemma TableEntry(i: nat)
    requires i < 255
    ensures Log(Exponent(i)) == i
    ensures Double(Exponent(i)) == Exponent(if i == 254 then 0 else i + 1)
  {
    hide Exponent, Log, Double;
    Ends();
    if i < 254 {
      EntryOf(i);
    }
  }
}
