/** The generator against the parity check matrix: in each of the 83 checks the columns of the named
    bits cancel. These are ground facts about the two tables: first the value of every column, then
    the sum over every row, then the rows as the table of checks lists them. */
module LdpcRows {
  import opened Constants

  const TOP: bv96 := 0x800000000000000000000000

  /** What codeword bit idx (1-origin) sums: a message bit sums itself, a parity bit the message bits
      of its generator row, and the padding index 0 nothing. */
  function Column(idx: nat): Vec {
    if idx == 0 then Vec(0)
    else if idx <= 91 then Vec(TOP >> (idx - 1))
    else if idx <= 174 then Generator(idx - 92)
    else Vec(0)
  }

  /** Addition of two columns over GF(2). */
  function Xor(a: Vec, b: Vec): Vec {
    Vec(a.bits ^ b.bits)
  }

  predicate Cancels(n0: nat, n1: nat, n2: nat, n3: nat, n4: nat, n5: nat, n6: nat) {
    Xor(Xor(Xor(Column(n0), Column(n1)), Column(n2)), Column(n3)) == Xor(Xor(Column(n4), Column(n5)), Column(n6))
  }

  predicate RowCancels(c: Check) {
    Cancels(c.n0, c.n1, c.n2, c.n3, c.n4, c.n5, c.n6)
  }

  lemma ColumnsFrom0()
    ensures Column(0) == Vec(0x000000000000000000000000)
    ensures Column(1) == Vec(0x800000000000000000000000)
    ensures Column(2) == Vec(0x400000000000000000000000)
    ensures Column(3) == Vec(0x200000000000000000000000)
    ensures Column(4) == Vec(0x100000000000000000000000)
    ensures Column(5) == Vec(0x080000000000000000000000)
    ensures Column(6) == Vec(0x040000000000000000000000)
    ensures Column(7) == Vec(0x020000000000000000000000)
    ensures Column(8) == Vec(0x010000000000000000000000)
    ensures Column(9) == Vec(0x008000000000000000000000)
    ensures Column(10) == Vec(0x004000000000000000000000)
    ensures Column(11) == Vec(0x002000000000000000000000)
    ensures Column(12) == Vec(0x001000000000000000000000)
    ensures Column(13) == Vec(0x000800000000000000000000)
    ensures Column(14) == Vec(0x000400000000000000000000)
  {
    assert TOP >> 0 == 0x800000000000000000000000;
    assert TOP >> 1 == 0x400000000000000000000000;
    assert TOP >> 2 == 0x200000000000000000000000;
    assert TOP >> 3 == 0x100000000000000000000000;
    assert TOP >> 4 == 0x080000000000000000000000;
    assert TOP >> 5 == 0x040000000000000000000000;
    assert TOP >> 6 == 0x020000000000000000000000;
    assert TOP >> 7 == 0x010000000000000000000000;
    assert TOP >> 8 == 0x008000000000000000000000;
    assert TOP >> 9 == 0x004000000000000000000000;
    assert TOP >> 10 == 0x002000000000000000000000;
    assert TOP >> 11 == 0x001000000000000000000000;
    assert TOP >> 12 == 0x000800000000000000000000;
    assert TOP >> 13 == 0x000400000000000000000000;
  }

  lemma ColumnsFrom15()
    ensures Column(15) == Vec(0x000200000000000000000000)
    ensures Column(16) == Vec(0x000100000000000000000000)
    ensures Column(17) == Vec(0x000080000000000000000000)
    ensures Column(18) == Vec(0x000040000000000000000000)
    ensures Column(19) == Vec(0x000020000000000000000000)
    ensures Column(20) == Vec(0x000010000000000000000000)
    ensures Column(21) == Vec(0x000008000000000000000000)
    ensures Column(22) == Vec(0x000004000000000000000000)
    ensures Column(23) == Vec(0x000002000000000000000000)
    ensures Column(24) == Vec(0x000001000000000000000000)
    ensures Column(25) == Vec(0x000000800000000000000000)
    ensures Column(26) == Vec(0x000000400000000000000000)
    ensures Column(27) == Vec(0x000000200000000000000000)
    ensures Column(28) == Vec(0x000000100000000000000000)
    ensures Column(29) == Vec(0x000000080000000000000000)
  {
    assert TOP >> 14 == 0x000200000000000000000000;
    assert TOP >> 15 == 0x000100000000000000000000;
    assert TOP >> 16 == 0x000080000000000000000000;
    assert TOP >> 17 == 0x000040000000000000000000;
    assert TOP >> 18 == 0x000020000000000000000000;
    assert TOP >> 19 == 0x000010000000000000000000;
    assert TOP >> 20 == 0x000008000000000000000000;
    assert TOP >> 21 == 0x000004000000000000000000;
    assert TOP >> 22 == 0x000002000000000000000000;
    assert TOP >> 23 == 0x000001000000000000000000;
    assert TOP >> 24 == 0x000000800000000000000000;
    assert TOP >> 25 == 0x000000400000000000000000;
    assert TOP >> 26 == 0x000000200000000000000000;
    assert TOP >> 27 == 0x000000100000000000000000;
    assert TOP >> 28 == 0x000000080000000000000000;
  }

  lemma ColumnsFrom30()
    ensures Column(30) == Vec(0x000000040000000000000000)
    ensures Column(31) == Vec(0x000000020000000000000000)
    ensures Column(32) == Vec(0x000000010000000000000000)
    ensures Column(33) == Vec(0x000000008000000000000000)
    ensures Column(34) == Vec(0x000000004000000000000000)
    ensures Column(35) == Vec(0x000000002000000000000000)
    ensures Column(36) == Vec(0x000000001000000000000000)
    ensures Column(37) == Vec(0x000000000800000000000000)
    ensures Column(38) == Vec(0x000000000400000000000000)
    ensures Column(39) == Vec(0x000000000200000000000000)
    ensures Column(40) == Vec(0x000000000100000000000000)
    ensures Column(41) == Vec(0x000000000080000000000000)
    ensures Column(42) == Vec(0x000000000040000000000000)
    ensures Column(43) == Vec(0x000000000020000000000000)
    ensures Column(44) == Vec(0x000000000010000000000000)
  {
    assert TOP >> 29 == 0x000000040000000000000000;
    assert TOP >> 30 == 0x000000020000000000000000;
    assert TOP >> 31 == 0x000000010000000000000000;
    assert TOP >> 32 == 0x000000008000000000000000;
    assert TOP >> 33 == 0x000000004000000000000000;
    assert TOP >> 34 == 0x000000002000000000000000;
    assert TOP >> 35 == 0x000000001000000000000000;
    assert TOP >> 36 == 0x000000000800000000000000;
    assert TOP >> 37 == 0x000000000400000000000000;
    assert TOP >> 38 == 0x000000000200000000000000;
    assert TOP >> 39 == 0x000000000100000000000000;
    assert TOP >> 40 == 0x000000000080000000000000;
    assert TOP >> 41 == 0x000000000040000000000000;
    assert TOP >> 42 == 0x000000000020000000000000;
    assert TOP >> 43 == 0x000000000010000000000000;
  }

  lemma ColumnsFrom45()
    ensures Column(45) == Vec(0x000000000008000000000000)
    ensures Column(46) == Vec(0x000000000004000000000000)
    ensures Column(47) == Vec(0x000000000002000000000000)
    ensures Column(48) == Vec(0x000000000001000000000000)
    ensures Column(49) == Vec(0x000000000000800000000000)
    ensures Column(50) == Vec(0x000000000000400000000000)
    ensures Column(51) == Vec(0x000000000000200000000000)
    ensures Column(52) == Vec(0x000000000000100000000000)
    ensures Column(53) == Vec(0x000000000000080000000000)
    ensures Column(54) == Vec(0x000000000000040000000000)
    ensures Column(55) == Vec(0x000000000000020000000000)
    ensures Column(56) == Vec(0x000000000000010000000000)
    ensures Column(57) == Vec(0x000000000000008000000000)
    ensures Column(58) == Vec(0x000000000000004000000000)
    ensures Column(59) == Vec(0x000000000000002000000000)
  {
    assert TOP >> 44 == 0x000000000008000000000000;
    assert TOP >> 45 == 0x000000000004000000000000;
    assert TOP >> 46 == 0x000000000002000000000000;
    assert TOP >> 47 == 0x000000000001000000000000;
    assert TOP >> 48 == 0x000000000000800000000000;
    assert TOP >> 49 == 0x000000000000400000000000;
    assert TOP >> 50 == 0x000000000000200000000000;
    assert TOP >> 51 == 0x000000000000100000000000;
    assert TOP >> 52 == 0x000000000000080000000000;
    assert TOP >> 53 == 0x000000000000040000000000;
    assert TOP >> 54 == 0x000000000000020000000000;
    assert TOP >> 55 == 0x000000000000010000000000;
    assert TOP >> 56 == 0x000000000000008000000000;
    assert TOP >> 57 == 0x000000000000004000000000;
    assert TOP >> 58 == 0x000000000000002000000000;
  }

  lemma ColumnsFrom60()
    ensures Column(60) == Vec(0x000000000000001000000000)
    ensures Column(61) == Vec(0x000000000000000800000000)
    ensures Column(62) == Vec(0x000000000000000400000000)
    ensures Column(63) == Vec(0x000000000000000200000000)
    ensures Column(64) == Vec(0x000000000000000100000000)
    ensures Column(65) == Vec(0x000000000000000080000000)
    ensures Column(66) == Vec(0x000000000000000040000000)
    ensures Column(67) == Vec(0x000000000000000020000000)
    ensures Column(68) == Vec(0x000000000000000010000000)
    ensures Column(69) == Vec(0x000000000000000008000000)
    ensures Column(70) == Vec(0x000000000000000004000000)
    ensures Column(71) == Vec(0x000000000000000002000000)
    ensures Column(72) == Vec(0x000000000000000001000000)
    ensures Column(73) == Vec(0x000000000000000000800000)
    ensures Column(74) == Vec(0x000000000000000000400000)
  {
    assert TOP >> 59 == 0x000000000000001000000000;
    assert TOP >> 60 == 0x000000000000000800000000;
    assert TOP >> 61 == 0x000000000000000400000000;
    assert TOP >> 62 == 0x000000000000000200000000;
    assert TOP >> 63 == 0x000000000000000100000000;
    assert TOP >> 64 == 0x000000000000000080000000;
    assert TOP >> 65 == 0x000000000000000040000000;
    assert TOP >> 66 == 0x000000000000000020000000;
    assert TOP >> 67 == 0x000000000000000010000000;
    assert TOP >> 68 == 0x000000000000000008000000;
    assert TOP >> 69 == 0x000000000000000004000000;
    assert TOP >> 70 == 0x000000000000000002000000;
    assert TOP >> 71 == 0x000000000000000001000000;
    assert TOP >> 72 == 0x000000000000000000800000;
    assert TOP >> 73 == 0x000000000000000000400000;
  }

  lemma ColumnsFrom75()
    ensures Column(75) == Vec(0x000000000000000000200000)
    ensures Column(76) == Vec(0x000000000000000000100000)
    ensures Column(77) == Vec(0x000000000000000000080000)
    ensures Column(78) == Vec(0x000000000000000000040000)
    ensures Column(79) == Vec(0x000000000000000000020000)
    ensures Column(80) == Vec(0x000000000000000000010000)
    ensures Column(81) == Vec(0x000000000000000000008000)
    ensures Column(82) == Vec(0x000000000000000000004000)
    ensures Column(83) == Vec(0x000000000000000000002000)
    ensures Column(84) == Vec(0x000000000000000000001000)
    ensures Column(85) == Vec(0x000000000000000000000800)
    ensures Column(86) == Vec(0x000000000000000000000400)
    ensures Column(87) == Vec(0x000000000000000000000200)
    ensures Column(88) == Vec(0x000000000000000000000100)
    ensures Column(89) == Vec(0x000000000000000000000080)
  {
    assert TOP >> 74 == 0x000000000000000000200000;
    assert TOP >> 75 == 0x000000000000000000100000;
    assert TOP >> 76 == 0x000000000000000000080000;
    assert TOP >> 77 == 0x000000000000000000040000;
    assert TOP >> 78 == 0x000000000000000000020000;
    assert TOP >> 79 == 0x000000000000000000010000;
    assert TOP >> 80 == 0x000000000000000000008000;
    assert TOP >> 81 == 0x000000000000000000004000;
    assert TOP >> 82 == 0x000000000000000000002000;
    assert TOP >> 83 == 0x000000000000000000001000;
    assert TOP >> 84 == 0x000000000000000000000800;
    assert TOP >> 85 == 0x000000000000000000000400;
    assert TOP >> 86 == 0x000000000000000000000200;
    assert TOP >> 87 == 0x000000000000000000000100;
    assert TOP >> 88 == 0x000000000000000000000080;
  }

  lemma ColumnsFrom90()
    ensures Column(90) == Vec(0x000000000000000000000040)
    ensures Column(91) == Vec(0x000000000000000000000020)
    ensures Column(92) == Vec(0x8329ce11bf31eaf509f27fc0)
    ensures Column(93) == Vec(0x761c264e25c2593354931320)
    ensures Column(94) == Vec(0xdc265902fb277c6410a1bdc0)
    ensures Column(95) == Vec(0x1b3f417858cd2dd33ec7f620)
    ensures Column(96) == Vec(0x09fda4fee04195fd034783a0)
    ensures Column(97) == Vec(0x077cccc11b8873ed5c3d48a0)
    ensures Column(98) == Vec(0x29b62afe3ca036f4fe1a9da0)
    ensures Column(99) == Vec(0x6054faf5f35d96d3b0c8c3e0)
    ensures Column(100) == Vec(0xe20798e4310eed27884ae900)
    ensures Column(101) == Vec(0x775c9c08e80e26ddae563180)
    ensures Column(102) == Vec(0xb0b811028c2bf997213487c0)
    ensures Column(103) == Vec(0x18a0c9231fc60adf5c5ea320)
    ensures Column(104) == Vec(0x76471e8302a0721e01b12b80)
  {
    assert TOP >> 89 == 0x000000000000000000000040;
    assert TOP >> 90 == 0x000000000000000000000020;
  }

  lemma ColumnsFrom105()
    ensures Column(105) == Vec(0xffbccb80ca8341fafb47b2e0)
    ensures Column(106) == Vec(0x66a72a158f9325a2bf671700)
    ensures Column(107) == Vec(0xc4243689fe85b1c51363a180)
    ensures Column(108) == Vec(0x0dff739414d1a1b34b1c2700)
    ensures Column(109) == Vec(0x15b48830636c8b99894972e0)
    ensures Column(110) == Vec(0x29a89c0d3de81d665489b0e0)
    ensures Column(111) == Vec(0x4f126f37fa51cbe61bd6b940)
    ensures Column(112) == Vec(0x99c47239d0d97d3c84e09400)
    ensures Column(113) == Vec(0x1919b75119765621bb4f1e80)
    ensures Column(114) == Vec(0x09db12d731faee0b86df6b80)
    ensures Column(115) == Vec(0x488fc33df43fbdeea4eafb40)
    ensures Column(116) == Vec(0x827423ee40b675f756eb5fe0)
    ensures Column(117) == Vec(0xabe197c484cb74757144a9a0)
    ensures Column(118) == Vec(0x2b500e4bc0ec5a6d2bdbdd00)
    ensures Column(119) == Vec(0xc474aa53d702187616693600)
  {
  }

  lemma ColumnsFrom120()
    ensures Column(120) == Vec(0x8eba1a13db3390bd6718cec0)
    ensures Column(121) == Vec(0x753844673a27782cc42012e0)
    ensures Column(122) == Vec(0x06ff83a145c37035a5c12680)
    ensures Column(123) == Vec(0x3b37417858cc2dd33ec3f620)
    ensures Column(124) == Vec(0x9a4a5a28ee17ca9c324842c0)
    ensures Column(125) == Vec(0xbc29f465309c977e89610a40)
    ensures Column(126) == Vec(0x2663ae6ddf8b5ce2bb294880)
    ensures Column(127) == Vec(0x46f231efe457034c18144180)
    ensures Column(128) == Vec(0x3fb2ce85abe9b0c72e06fbe0)
    ensures Column(129) == Vec(0xde87481f282c153971a0a2e0)
    ensures Column(130) == Vec(0xfcd7ccf23c69fa99bba14120)
    ensures Column(131) == Vec(0xf0261447e9490ca8e474cec0)
    ensures Column(132) == Vec(0x4410115818196f95cdd70120)
    ensures Column(133) == Vec(0x088fc31df4bfbde2a4eafb40)
    ensures Column(134) == Vec(0xb8fef1b6307729fb0a078c00)
  {
  }

  lemma ColumnsFrom135()
    ensures Column(135) == Vec(0x5afea7acccb77bbc9d99a900)
    ensures Column(136) == Vec(0x49a7016ac653f65ecdc90760)
    ensures Column(137) == Vec(0x1944d085be4e7da8d6cc7d00)
    ensures Column(138) == Vec(0x251f62adc4032f0ee7140020)
    ensures Column(139) == Vec(0x56471f8702a0721e00b12b80)
    ensures Column(140) == Vec(0x2b8e4923f2dd51e2d537fa00)
    ensures Column(141) == Vec(0x6b550a40a66f4755de95c260)
    ensures Column(142) == Vec(0xa18ad28d4e27fe92a4f6c840)
    ensures Column(143) == Vec(0x10c2e586388cb82a3d807580)
    ensures Column(144) == Vec(0xef34a41817ee02133db2eb00)
    ensures Column(145) == Vec(0x7e9c0c54325a9c15836e0000)
    ensures Column(146) == Vec(0x3693e572d1fde4cdf079e860)
    ensures Column(147) == Vec(0xbfb2cec5abe1b0c72e07fbe0)
    ensures Column(148) == Vec(0x7ee18230c583cccc57d4b080)
    ensures Column(149) == Vec(0xa066cb2fedafc9f526641260)
  {
  }

  lemma ColumnsFrom150()
    ensures Column(150) == Vec(0xbb23725abc47cc5f4cc4cd20)
    ensures Column(151) == Vec(0xded9dba3bee40c59b5609b40)
    ensures Column(152) == Vec(0xd9a7016ac653e6decdc90360)
    ensures Column(153) == Vec(0x9ad46aed5f707f280ab5fc40)
    ensures Column(154) == Vec(0xe5921c77822587316d7d3c20)
    ensures Column(155) == Vec(0x4f14da8242a8b86dca733520)
    ensures Column(156) == Vec(0x8b8b507ad467d4441df770e0)
    ensures Column(157) == Vec(0x22831c9cf1169467ad04b680)
    ensures Column(158) == Vec(0x213b838fe2ae54c38ee71800)
    ensures Column(159) == Vec(0x5d926b6dd71f085181a4e120)
    ensures Column(160) == Vec(0x66ab79d4b29ee6e69509e560)
    ensures Column(161) == Vec(0x958148682d748a38dd68baa0)
    ensures Column(162) == Vec(0xb8ce020cf069c32a723ab140)
    ensures Column(163) == Vec(0xf4331d6d461607e957527460)
    ensures Column(164) == Vec(0x6da23ba424b9596133cf9c80)
  {
  }

  lemma ColumnsFrom165()
    ensures Column(165) == Vec(0xa636bcbc7b30c5fbeae67fe0)
    ensures Column(166) == Vec(0x5cb0d86a07df654a9089a200)
    ensures Column(167) == Vec(0xf11f106848780fc9ecdd80a0)
    ensures Column(168) == Vec(0x1fbb5364fb8d2c9d730d5ba0)
    ensures Column(169) == Vec(0xfcb86bc70a50c9d02a5d0340)
    ensures Column(170) == Vec(0xa534433029eac15f322e34c0)
    ensures Column(171) == Vec(0xc989d9c7c3d3b8c55d751300)
    ensures Column(172) == Vec(0x7bb38b2f0186d46643ae9620)
    ensures Column(173) == Vec(0x2644ebadeb44b9467d1f42c0)
    ensures Column(174) == Vec(0x608cc857594bfbb55d696000)
  {
  }

  lemma CancelsFrom0()
    ensures Cancels(4, 31, 59, 91, 92, 96, 153)
    ensures Cancels(5, 32, 60, 93, 115, 146, 0)
    ensures Cancels(6, 24, 61, 94, 122, 151, 0)
    ensures Cancels(7, 33, 62, 95, 96, 143, 0)
    ensures Cancels(8, 25, 63, 83, 93, 96, 148)
  {
    hide Column;
    ColumnsFrom0(); ColumnsFrom15(); ColumnsFrom30(); ColumnsFrom45(); ColumnsFrom60();
    ColumnsFrom75(); ColumnsFrom90(); ColumnsFrom105(); ColumnsFrom120(); ColumnsFrom135();
    ColumnsFrom150();
  }

  lemma CancelsFrom5()
    ensures Cancels(6, 32, 64, 97, 126, 138, 0)
    ensures Cancels(5, 34, 65, 78, 98, 107, 154)
    ensures Cancels(9, 35, 66, 99, 139, 146, 0)
    ensures Cancels(10, 36, 67, 100, 107, 126, 0)
    ensures Cancels(11, 37, 67, 87, 101, 139, 158)
  {
    hide Column;
    ColumnsFrom0(); ColumnsFrom30(); ColumnsFrom60(); ColumnsFrom75(); ColumnsFrom90();
    ColumnsFrom105(); ColumnsFrom120(); ColumnsFrom135(); ColumnsFrom150();
  }

  lemma CancelsFrom10()
    ensures Cancels(12, 38, 68, 102, 105, 155, 0)
    ensures Cancels(13, 39, 69, 103, 149, 162, 0)
    ensures Cancels(8, 40, 70, 82, 104, 114, 145)
    ensures Cancels(14, 41, 71, 88, 102, 123, 156)
    ensures Cancels(15, 42, 59, 106, 123, 159, 0)
  {
    hide Column;
    ColumnsFrom0(); ColumnsFrom15(); ColumnsFrom30(); ColumnsFrom45(); ColumnsFrom60();
    ColumnsFrom75(); ColumnsFrom90(); ColumnsFrom105(); ColumnsFrom120(); ColumnsFrom135();
    ColumnsFrom150();
  }

  lemma CancelsFrom15()
    ensures Cancels(1, 33, 72, 106, 107, 157, 0)
    ensures Cancels(16, 43, 73, 108, 141, 160, 0)
    ensures Cancels(17, 37, 74, 81, 109, 131, 154)
    ensures Cancels(11, 44, 75, 110, 121, 166, 0)
    ensures Cancels(45, 55, 64, 111, 130, 161, 173)
  {
    hide Column;
    ColumnsFrom0(); ColumnsFrom15(); ColumnsFrom30(); ColumnsFrom45(); ColumnsFrom60();
    ColumnsFrom75(); ColumnsFrom105(); ColumnsFrom120(); ColumnsFrom135(); ColumnsFrom150();
    ColumnsFrom165();
  }

  lemma CancelsFrom20()
    ensures Cancels(8, 46, 71, 112, 119, 166, 0)
    ensures Cancels(18, 36, 76, 89, 113, 114, 143)
    ensures Cancels(19, 38, 77, 104, 116, 163, 0)
    ensures Cancels(20, 47, 70, 92, 138, 165, 0)
    ensures Cancels(2, 48, 74, 113, 128, 160, 0)
  {
    hide Column;
    ColumnsFrom0(); ColumnsFrom15(); ColumnsFrom30(); ColumnsFrom45(); ColumnsFrom60();
    ColumnsFrom75(); ColumnsFrom90(); ColumnsFrom105(); ColumnsFrom120(); ColumnsFrom135();
    ColumnsFrom150(); ColumnsFrom165();
  }

  lemma CancelsFrom25()
    ensures Cancels(21, 45, 78, 83, 117, 121, 151)
    ensures Cancels(22, 47, 58, 118, 127, 164, 0)
    ensures Cancels(16, 39, 62, 112, 134, 158, 0)
    ensures Cancels(23, 43, 79, 120, 131, 145, 0)
    ensures Cancels(19, 35, 59, 73, 110, 125, 161)
  {
    hide Column;
    ColumnsFrom0(); ColumnsFrom15(); ColumnsFrom30(); ColumnsFrom45(); ColumnsFrom60();
    ColumnsFrom75(); ColumnsFrom105(); ColumnsFrom120(); ColumnsFrom135(); ColumnsFrom150();
  }

  lemma CancelsFrom30()
    ensures Cancels(20, 36, 63, 94, 136, 161, 0)
    ensures Cancels(14, 31, 79, 98, 132, 164, 0)
    ensures Cancels(3, 44, 80, 124, 127, 169, 0)
    ensures Cancels(19, 46, 81, 117, 135, 167, 0)
    ensures Cancels(7, 49, 58, 90, 100, 105, 168)
  {
    hide Column;
    ColumnsFrom0(); ColumnsFrom15(); ColumnsFrom30(); ColumnsFrom45(); ColumnsFrom60();
    ColumnsFrom75(); ColumnsFrom90(); ColumnsFrom105(); ColumnsFrom120(); ColumnsFrom135();
    ColumnsFrom150(); ColumnsFrom165();
  }

  lemma CancelsFrom35()
    ensures Cancels(12, 50, 61, 118, 119, 144, 0)
    ensures Cancels(13, 51, 64, 114, 118, 157, 0)
    ensures Cancels(24, 52, 76, 129, 148, 149, 0)
    ensures Cancels(25, 53, 69, 90, 101, 130, 156)
    ensures Cancels(20, 46, 65, 80, 120, 140, 170)
  {
    hide Column;
    ColumnsFrom0(); ColumnsFrom15(); ColumnsFrom45(); ColumnsFrom60(); ColumnsFrom75();
    ColumnsFrom90(); ColumnsFrom105(); ColumnsFrom120(); ColumnsFrom135(); ColumnsFrom150();
    ColumnsFrom165();
  }

  lemma CancelsFrom40()
    ensures Cancels(21, 54, 77, 100, 140, 171, 0)
    ensures Cancels(35, 82, 133, 142, 171, 174, 0)
    ensures Cancels(14, 30, 83, 113, 125, 170, 0)
    ensures Cancels(4, 29, 68, 120, 134, 173, 0)
    ensures Cancels(1, 4, 52, 57, 86, 136, 152)
  {
    hide Column;
    ColumnsFrom0(); ColumnsFrom15(); ColumnsFrom30(); ColumnsFrom45(); ColumnsFrom60();
    ColumnsFrom75(); ColumnsFrom90(); ColumnsFrom105(); ColumnsFrom120(); ColumnsFrom135();
    ColumnsFrom150(); ColumnsFrom165();
  }

  lemma CancelsFrom45()
    ensures Cancels(26, 51, 56, 91, 122, 137, 168)
    ensures Cancels(52, 84, 110, 115, 145, 168, 0)
    ensures Cancels(7, 50, 81, 99, 132, 173, 0)
    ensures Cancels(23, 55, 67, 95, 172, 174, 0)
    ensures Cancels(26, 41, 77, 109, 141, 148, 0)
  {
    hide Column;
    ColumnsFrom0(); ColumnsFrom15(); ColumnsFrom30(); ColumnsFrom45(); ColumnsFrom60();
    ColumnsFrom75(); ColumnsFrom90(); ColumnsFrom105(); ColumnsFrom120(); ColumnsFrom135();
    ColumnsFrom165();
  }

  lemma CancelsFrom50()
    ensures Cancels(2, 27, 41, 61, 62, 115, 133)
    ensures Cancels(27, 40, 56, 124, 125, 126, 0)
    ensures Cancels(18, 49, 55, 124, 141, 167, 0)
    ensures Cancels(6, 33, 85, 108, 116, 156, 0)
    ensures Cancels(28, 48, 70, 85, 105, 129, 158)
  {
    hide Column;
    ColumnsFrom0(); ColumnsFrom15(); ColumnsFrom30(); ColumnsFrom45(); ColumnsFrom60();
    ColumnsFrom75(); ColumnsFrom105(); ColumnsFrom120(); ColumnsFrom135(); ColumnsFrom150();
    ColumnsFrom165();
  }

  lemma CancelsFrom55()
    ensures Cancels(9, 54, 63, 131, 147, 155, 0)
    ensures Cancels(22, 53, 68, 109, 121, 174, 0)
    ensures Cancels(3, 13, 48, 78, 95, 123, 0)
    ensures Cancels(31, 69, 133, 150, 155, 169, 0)
    ensures Cancels(12, 43, 66, 89, 97, 135, 159)
  {
    hide Column;
    ColumnsFrom0(); ColumnsFrom15(); ColumnsFrom30(); ColumnsFrom45(); ColumnsFrom60();
    ColumnsFrom75(); ColumnsFrom90(); ColumnsFrom105(); ColumnsFrom120(); ColumnsFrom135();
    ColumnsFrom150(); ColumnsFrom165();
  }

  lemma CancelsFrom60()
    ensures Cancels(5, 39, 75, 102, 136, 167, 0)
    ensures Cancels(2, 54, 86, 101, 135, 164, 0)
    ensures Cancels(15, 56, 87, 108, 119, 171, 0)
    ensures Cancels(10, 44, 82, 91, 111, 144, 149)
    ensures Cancels(23, 34, 71, 94, 127, 153, 0)
  {
    hide Column;
    ColumnsFrom0(); ColumnsFrom15(); ColumnsFrom30(); ColumnsFrom45(); ColumnsFrom60();
    ColumnsFrom75(); ColumnsFrom90(); ColumnsFrom105(); ColumnsFrom120(); ColumnsFrom135();
    ColumnsFrom150(); ColumnsFrom165();
  }

  lemma CancelsFrom65()
    ensures Cancels(11, 49, 88, 92, 142, 157, 0)
    ensures Cancels(29, 34, 87, 97, 147, 162, 0)
    ensures Cancels(30, 50, 60, 86, 137, 142, 162)
    ensures Cancels(10, 53, 66, 84, 112, 128, 165)
    ensures Cancels(22, 57, 85, 93, 140, 159, 0)
  {
    hide Column;
    ColumnsFrom0(); ColumnsFrom15(); ColumnsFrom30(); ColumnsFrom45(); ColumnsFrom60();
    ColumnsFrom75(); ColumnsFrom90(); ColumnsFrom105(); ColumnsFrom120(); ColumnsFrom135();
    ColumnsFrom150(); ColumnsFrom165();
  }

  lemma CancelsFrom70()
    ensures Cancels(28, 32, 72, 103, 132, 166, 0)
    ensures Cancels(28, 29, 84, 88, 117, 143, 150)
    ensures Cancels(1, 26, 45, 80, 128, 147, 0)
    ensures Cancels(17, 27, 89, 103, 116, 153, 0)
    ensures Cancels(51, 57, 98, 163, 165, 172, 0)
  {
    hide Column;
    ColumnsFrom0(); ColumnsFrom15(); ColumnsFrom30(); ColumnsFrom45(); ColumnsFrom60();
    ColumnsFrom75(); ColumnsFrom90(); ColumnsFrom105(); ColumnsFrom120(); ColumnsFrom135();
    ColumnsFrom150(); ColumnsFrom165();
  }

  lemma CancelsFrom75()
    ensures Cancels(21, 37, 73, 138, 152, 169, 0)
    ensures Cancels(16, 47, 76, 130, 137, 154, 0)
    ensures Cancels(3, 24, 30, 72, 104, 139, 0)
    ensures Cancels(9, 40, 90, 106, 134, 151, 0)
    ensures Cancels(15, 58, 60, 74, 111, 150, 163)
  {
    hide Column;
    ColumnsFrom0(); ColumnsFrom15(); ColumnsFrom30(); ColumnsFrom45(); ColumnsFrom60();
    ColumnsFrom75(); ColumnsFrom90(); ColumnsFrom105(); ColumnsFrom120(); ColumnsFrom135();
    ColumnsFrom150(); ColumnsFrom165();
  }

  lemma CancelsFrom80()
    ensures Cancels(18, 42, 79, 144, 146, 152, 0)
    ensures Cancels(25, 38, 65, 99, 122, 160, 0)
    ensures Cancels(17, 42, 75, 129, 170, 172, 0)
  {
    hide Column;
    ColumnsFrom0(); ColumnsFrom15(); ColumnsFrom30(); ColumnsFrom60(); ColumnsFrom75();
    ColumnsFrom90(); ColumnsFrom120(); ColumnsFrom135(); ColumnsFrom150(); ColumnsFrom165();
  }

  lemma RowsFrom0(m: nat)
    requires 0 <= m <= 9
    ensures RowCancels(CheckRow(m))
  {
    hide Cancels;
    CancelsFrom0(); CancelsFrom5();
  }

  lemma RowsFrom10(m: nat)
    requires 10 <= m <= 19
    ensures RowCancels(CheckRow(m))
  {
    hide Cancels;
    CancelsFrom10(); CancelsFrom15();
  }

  lemma RowsFrom20(m: nat)
    requires 20 <= m <= 29
    ensures RowCancels(CheckRow(m))
  {
    hide Cancels;
    CancelsFrom20(); CancelsFrom25();
  }

  lemma RowsFrom30(m: nat)
    requires 30 <= m <= 39
    ensures RowCancels(CheckRow(m))
  {
    hide Cancels;
    CancelsFrom30(); CancelsFrom35();
  }

  lemma RowsFrom40(m: nat)
    requires 40 <= m <= 49
    ensures RowCancels(CheckRow(m))
  {
    hide Cancels;
    CancelsFrom40(); CancelsFrom45();
  }

  lemma RowsFrom50(m: nat)
    requires 50 <= m <= 59
    ensures RowCancels(CheckRow(m))
  {
    hide Cancels;
    CancelsFrom50(); CancelsFrom55();
  }

  lemma RowsFrom60(m: nat)
    requires 60 <= m <= 69
    ensures RowCancels(CheckRow(m))
  {
    hide Cancels;
    CancelsFrom60(); CancelsFrom65();
  }

  lemma RowsFrom70(m: nat)
    requires 70 <= m <= 79
    ensures RowCancels(CheckRow(m))
  {
    hide Cancels;
    CancelsFrom70(); CancelsFrom75();
  }

  lemma RowsFrom80(m: nat)
    requires 80 <= m <= 82
    ensures RowCancels(CheckRow(m))
  {
    hide Cancels;
    CancelsFrom80();
  }

  /** In every parity check the columns of the named bits cancel. */
  lemma EveryRowCancels(m: nat)
    requires m < M
    ensures RowCancels(CheckRow(m))
  {
    hide RowCancels, CheckRow;
    if m < 10 { RowsFrom0(m); }
    else if m < 20 { RowsFrom10(m); }
    else if m < 30 { RowsFrom20(m); }
    else if m < 40 { RowsFrom30(m); }
    else if m < 50 { RowsFrom40(m); }
    else if m < 60 { RowsFrom50(m); }
    else if m < 70 { RowsFrom60(m); }
    else if m < 80 { RowsFrom70(m); }
    else { RowsFrom80(m); }
  }
}
