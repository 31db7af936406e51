/** The tables of the FT4/FT8 channel code. The large ones are split into blocks of ten rows. */
module Constants {

  const K := 91  // message bits: 77 of payload and 14 of CRC
  const M := 83  // parity bits, and parity checks
  const N := 174 // bits of a codeword

  const FT8_ND := 58
  const FT8_NN := 79
  const FT4_ND := 87
  const FT4_NN := 105

  /** Costas synchronisation patterns. */
  function Costas8(k: nat): nat
    requires k < 7
    ensures Costas8(k) < 8
  {
    [3, 1, 4, 0, 6, 5, 2][k]
  }

  function Costas4(m: nat, k: nat): nat
    requires m < 4 && k < 4
    ensures Costas4(m, k) < 4
  {
    [[0, 1, 3, 2], [1, 0, 2, 3], [2, 3, 1, 0], [3, 2, 0, 1]][m][k]
  }

  /** Gray maps from data bits to channel symbols. */
  function Gray8(j: nat): nat
    requires j < 8
    ensures Gray8(j) < 8
  {
    if j == 0 then 0 else if j == 1 then 1 else if j == 2 then 3 else if j == 3 then 2
    else if j == 4 then 5 else if j == 5 then 6 else if j == 6 then 4 else 7
  }

  function Gray4(j: nat): nat
    requires j < 4
    ensures Gray4(j) < 4
  {
    if j == 0 then 0 else if j == 1 then 1 else if j == 2 then 3 else 2
  }

  /** The sequence that whitens an FT4 payload. */
  const FT4_XOR: seq<bv8> := [0x4A, 0x5E, 0x89, 0xB4, 0xB0, 0x8A, 0x79, 0x55, 0xBE, 0x28]

  /** A vector over GF(2) of 96 places, the first place in the most significant bit. */
  datatype Vec = Vec(bits: bv96)

  /** One parity check: the codeword bits it names, 1-origin, padded with 0. */
  datatype Check = Check(n0: nat, n1: nat, n2: nat, n3: nat, n4: nat, n5: nat, n6: nat) {
    predicate InRange() {
      1 <= n0 <= 174 && 1 <= n1 <= 174 && 1 <= n2 <= 174 && 1 <= n3 <= 174 && 1 <= n4 <= 174 && 1 <= n5 <= 174 &&
      n6 <= 174
    }

    function Entry(j: nat): nat
      requires j < 7
    {
      if j == 0 then n0 else if j == 1 then n1 else if j == 2 then n2 else if j == 3 then n3
      else if j == 4 then n4 else if j == 5 then n5 else n6
    }
  }

  /** The three parity checks that name one codeword bit, 1-origin. */
  datatype BitChecks = BitChecks(m0: nat, m1: nat, m2: nat) {
    predicate InRange() {
      1 <= m0 <= 83 && 1 <= m1 <= 83 && 1 <= m2 <= 83
    }

    function Entry(j: nat): nat
      requires j < 3
    {
      if j == 0 then m0 else if j == 1 then m1 else m2
    }
  }

  function Generator0(i: nat): Vec {
    if i == 0 then Vec(0x8329ce11bf31eaf509f27fc0)
    else if i == 1 then Vec(0x761c264e25c2593354931320)
    else if i == 2 then Vec(0xdc265902fb277c6410a1bdc0)
    else if i == 3 then Vec(0x1b3f417858cd2dd33ec7f620)
    else if i == 4 then Vec(0x09fda4fee04195fd034783a0)
    else if i == 5 then Vec(0x077cccc11b8873ed5c3d48a0)
    else if i == 6 then Vec(0x29b62afe3ca036f4fe1a9da0)
    else if i == 7 then Vec(0x6054faf5f35d96d3b0c8c3e0)
    else if i == 8 then Vec(0xe20798e4310eed27884ae900)
    else Vec(0x775c9c08e80e26ddae563180)
  }

  function Generator10(i: nat): Vec {
    if i == 10 then Vec(0xb0b811028c2bf997213487c0)
    else if i == 11 then Vec(0x18a0c9231fc60adf5c5ea320)
    else if i == 12 then Vec(0x76471e8302a0721e01b12b80)
    else if i == 13 then Vec(0xffbccb80ca8341fafb47b2e0)
    else if i == 14 then Vec(0x66a72a158f9325a2bf671700)
    else if i == 15 then Vec(0xc4243689fe85b1c51363a180)
    else if i == 16 then Vec(0x0dff739414d1a1b34b1c2700)
    else if i == 17 then Vec(0x15b48830636c8b99894972e0)
    else if i == 18 then Vec(0x29a89c0d3de81d665489b0e0)
    else Vec(0x4f126f37fa51cbe61bd6b940)
  }

  function Generator20(i: nat): Vec {
    if i == 20 then Vec(0x99c47239d0d97d3c84e09400)
    else if i == 21 then Vec(0x1919b75119765621bb4f1e80)
    else if i == 22 then Vec(0x09db12d731faee0b86df6b80)
    else if i == 23 then Vec(0x488fc33df43fbdeea4eafb40)
    else if i == 24 then Vec(0x827423ee40b675f756eb5fe0)
    else if i == 25 then Vec(0xabe197c484cb74757144a9a0)
    else if i == 26 then Vec(0x2b500e4bc0ec5a6d2bdbdd00)
    else if i == 27 then Vec(0xc474aa53d702187616693600)
    else if i == 28 then Vec(0x8eba1a13db3390bd6718cec0)
    else Vec(0x753844673a27782cc42012e0)
  }

  function Generator30(i: nat): Vec {
    if i == 30 then Vec(0x06ff83a145c37035a5c12680)
    else if i == 31 then Vec(0x3b37417858cc2dd33ec3f620)
    else if i == 32 then Vec(0x9a4a5a28ee17ca9c324842c0)
    else if i == 33 then Vec(0xbc29f465309c977e89610a40)
    else if i == 34 then Vec(0x2663ae6ddf8b5ce2bb294880)
    else if i == 35 then Vec(0x46f231efe457034c18144180)
    else if i == 36 then Vec(0x3fb2ce85abe9b0c72e06fbe0)
    else if i == 37 then Vec(0xde87481f282c153971a0a2e0)
    else if i == 38 then Vec(0xfcd7ccf23c69fa99bba14120)
    else Vec(0xf0261447e9490ca8e474cec0)
  }

  function Generator40(i: nat): Vec {
    if i == 40 then Vec(0x4410115818196f95cdd70120)
    else if i == 41 then Vec(0x088fc31df4bfbde2a4eafb40)
    else if i == 42 then Vec(0xb8fef1b6307729fb0a078c00)
    else if i == 43 then Vec(0x5afea7acccb77bbc9d99a900)
    else if i == 44 then Vec(0x49a7016ac653f65ecdc90760)
    else if i == 45 then Vec(0x1944d085be4e7da8d6cc7d00)
    else if i == 46 then Vec(0x251f62adc4032f0ee7140020)
    else if i == 47 then Vec(0x56471f8702a0721e00b12b80)
    else if i == 48 then Vec(0x2b8e4923f2dd51e2d537fa00)
    else Vec(0x6b550a40a66f4755de95c260)
  }

  function Generator50(i: nat): Vec {
    if i == 50 then Vec(0xa18ad28d4e27fe92a4f6c840)
    else if i == 51 then Vec(0x10c2e586388cb82a3d807580)
    else if i == 52 then Vec(0xef34a41817ee02133db2eb00)
    else if i == 53 then Vec(0x7e9c0c54325a9c15836e0000)
    else if i == 54 then Vec(0x3693e572d1fde4cdf079e860)
    else if i == 55 then Vec(0xbfb2cec5abe1b0c72e07fbe0)
    else if i == 56 then Vec(0x7ee18230c583cccc57d4b080)
    else if i == 57 then Vec(0xa066cb2fedafc9f526641260)
    else if i == 58 then Vec(0xbb23725abc47cc5f4cc4cd20)
    else Vec(0xded9dba3bee40c59b5609b40)
  }

  function Generator60(i: nat): Vec {
    if i == 60 then Vec(0xd9a7016ac653e6decdc90360)
    else if i == 61 then Vec(0x9ad46aed5f707f280ab5fc40)
    else if i == 62 then Vec(0xe5921c77822587316d7d3c20)
    else if i == 63 then Vec(0x4f14da8242a8b86dca733520)
    else if i == 64 then Vec(0x8b8b507ad467d4441df770e0)
    else if i == 65 then Vec(0x22831c9cf1169467ad04b680)
    else if i == 66 then Vec(0x213b838fe2ae54c38ee71800)
    else if i == 67 then Vec(0x5d926b6dd71f085181a4e120)
    else if i == 68 then Vec(0x66ab79d4b29ee6e69509e560)
    else Vec(0x958148682d748a38dd68baa0)
  }

  function Generator70(i: nat): Vec {
    if i == 70 then Vec(0xb8ce020cf069c32a723ab140)
    else if i == 71 then Vec(0xf4331d6d461607e957527460)
    else if i == 72 then Vec(0x6da23ba424b9596133cf9c80)
    else if i == 73 then Vec(0xa636bcbc7b30c5fbeae67fe0)
    else if i == 74 then Vec(0x5cb0d86a07df654a9089a200)
    else if i == 75 then Vec(0xf11f106848780fc9ecdd80a0)
    else if i == 76 then Vec(0x1fbb5364fb8d2c9d730d5ba0)
    else if i == 77 then Vec(0xfcb86bc70a50c9d02a5d0340)
    else if i == 78 then Vec(0xa534433029eac15f322e34c0)
    else Vec(0xc989d9c7c3d3b8c55d751300)
  }

  function Generator80(i: nat): Vec {
    if i == 80 then Vec(0x7bb38b2f0186d46643ae9620)
    else if i == 81 then Vec(0x2644ebadeb44b9467d1f42c0)
    else Vec(0x608cc857594bfbb55d696000)
  }

  /** Generator row of parity bit i: twelve bytes, most significant first. */
  function Generator(i: nat): Vec
    requires i < 83
  {
    if i < 10 then Generator0(i)
    else if i < 20 then Generator10(i)
    else if i < 30 then Generator20(i)
    else if i < 40 then Generator30(i)
    else if i < 50 then Generator40(i)
    else if i < 60 then Generator50(i)
    else if i < 70 then Generator60(i)
    else if i < 80 then Generator70(i)
    else Generator80(i)
  }

  /** Number of codeword bits that check i names. */
  function NumRows(i: nat): nat
    requires i < 83
    ensures NumRows(i) == 6 || NumRows(i) == 7
  {
    if i in {0, 4, 6, 9, 12, 13, 17, 19, 21, 25, 29, 34, 38, 39, 44, 45, 50, 54, 59, 63, 67, 68, 71, 79} then 7 else 6
  }

  function CheckRow0(i: nat): Check
    requires i < 83
    ensures CheckRow0(i).InRange()
  {
    if i == 0 then Check(4, 31, 59, 91, 92, 96, 153)
    else if i == 1 then Check(5, 32, 60, 93, 115, 146, 0)
    else if i == 2 then Check(6, 24, 61, 94, 122, 151, 0)
    else if i == 3 then Check(7, 33, 62, 95, 96, 143, 0)
    else if i == 4 then Check(8, 25, 63, 83, 93, 96, 148)
    else if i == 5 then Check(6, 32, 64, 97, 126, 138, 0)
    else if i == 6 then Check(5, 34, 65, 78, 98, 107, 154)
    else if i == 7 then Check(9, 35, 66, 99, 139, 146, 0)
    else if i == 8 then Check(10, 36, 67, 100, 107, 126, 0)
    else Check(11, 37, 67, 87, 101, 139, 158)
  }

  function CheckRow10(i: nat): Check
    requires i < 83
    ensures CheckRow10(i).InRange()
  {
    if i == 10 then Check(12, 38, 68, 102, 105, 155, 0)
    else if i == 11 then Check(13, 39, 69, 103, 149, 162, 0)
    else if i == 12 then Check(8, 40, 70, 82, 104, 114, 145)
    else if i == 13 then Check(14, 41, 71, 88, 102, 123, 156)
    else if i == 14 then Check(15, 42, 59, 106, 123, 159, 0)
    else if i == 15 then Check(1, 33, 72, 106, 107, 157, 0)
    else if i == 16 then Check(16, 43, 73, 108, 141, 160, 0)
    else if i == 17 then Check(17, 37, 74, 81, 109, 131, 154)
    else if i == 18 then Check(11, 44, 75, 110, 121, 166, 0)
    else Check(45, 55, 64, 111, 130, 161, 173)
  }

  function CheckRow20(i: nat): Check
    requires i < 83
    ensures CheckRow20(i).InRange()
  {
    if i == 20 then Check(8, 46, 71, 112, 119, 166, 0)
    else if i == 21 then Check(18, 36, 76, 89, 113, 114, 143)
    else if i == 22 then Check(19, 38, 77, 104, 116, 163, 0)
    else if i == 23 then Check(20, 47, 70, 92, 138, 165, 0)
    else if i == 24 then Check(2, 48, 74, 113, 128, 160, 0)
    else if i == 25 then Check(21, 45, 78, 83, 117, 121, 151)
    else if i == 26 then Check(22, 47, 58, 118, 127, 164, 0)
    else if i == 27 then Check(16, 39, 62, 112, 134, 158, 0)
    else if i == 28 then Check(23, 43, 79, 120, 131, 145, 0)
    else Check(19, 35, 59, 73, 110, 125, 161)
  }

  function CheckRow30(i: nat): Check
    requires i < 83
    ensures CheckRow30(i).InRange()
  {
    if i == 30 then Check(20, 36, 63, 94, 136, 161, 0)
    else if i == 31 then Check(14, 31, 79, 98, 132, 164, 0)
    else if i == 32 then Check(3, 44, 80, 124, 127, 169, 0)
    else if i == 33 then Check(19, 46, 81, 117, 135, 167, 0)
    else if i == 34 then Check(7, 49, 58, 90, 100, 105, 168)
    else if i == 35 then Check(12, 50, 61, 118, 119, 144, 0)
    else if i == 36 then Check(13, 51, 64, 114, 118, 157, 0)
    else if i == 37 then Check(24, 52, 76, 129, 148, 149, 0)
    else if i == 38 then Check(25, 53, 69, 90, 101, 130, 156)
    else Check(20, 46, 65, 80, 120, 140, 170)
  }

  function CheckRow40(i: nat): Check
    requires i < 83
    ensures CheckRow40(i).InRange()
  {
    if i == 40 then Check(21, 54, 77, 100, 140, 171, 0)
    else if i == 41 then Check(35, 82, 133, 142, 171, 174, 0)
    else if i == 42 then Check(14, 30, 83, 113, 125, 170, 0)
    else if i == 43 then Check(4, 29, 68, 120, 134, 173, 0)
    else if i == 44 then Check(1, 4, 52, 57, 86, 136, 152)
    else if i == 45 then Check(26, 51, 56, 91, 122, 137, 168)
    else if i == 46 then Check(52, 84, 110, 115, 145, 168, 0)
    else if i == 47 then Check(7, 50, 81, 99, 132, 173, 0)
    else if i == 48 then Check(23, 55, 67, 95, 172, 174, 0)
    else Check(26, 41, 77, 109, 141, 148, 0)
  }

  function CheckRow50(i: nat): Check
    requires i < 83
    ensures CheckRow50(i).InRange()
  {
    if i == 50 then Check(2, 27, 41, 61, 62, 115, 133)
    else if i == 51 then Check(27, 40, 56, 124, 125, 126, 0)
    else if i == 52 then Check(18, 49, 55, 124, 141, 167, 0)
    else if i == 53 then Check(6, 33, 85, 108, 116, 156, 0)
    else if i == 54 then Check(28, 48, 70, 85, 105, 129, 158)
    else if i == 55 then Check(9, 54, 63, 131, 147, 155, 0)
    else if i == 56 then Check(22, 53, 68, 109, 121, 174, 0)
    else if i == 57 then Check(3, 13, 48, 78, 95, 123, 0)
    else if i == 58 then Check(31, 69, 133, 150, 155, 169, 0)
    else Check(12, 43, 66, 89, 97, 135, 159)
  }

  function CheckRow60(i: nat): Check
    requires i < 83
    ensures CheckRow60(i).InRange()
  {
    if i == 60 then Check(5, 39, 75, 102, 136, 167, 0)
    else if i == 61 then Check(2, 54, 86, 101, 135, 164, 0)
    else if i == 62 then Check(15, 56, 87, 108, 119, 171, 0)
    else if i == 63 then Check(10, 44, 82, 91, 111, 144, 149)
    else if i == 64 then Check(23, 34, 71, 94, 127, 153, 0)
    else if i == 65 then Check(11, 49, 88, 92, 142, 157, 0)
    else if i == 66 then Check(29, 34, 87, 97, 147, 162, 0)
    else if i == 67 then Check(30, 50, 60, 86, 137, 142, 162)
    else if i == 68 then Check(10, 53, 66, 84, 112, 128, 165)
    else Check(22, 57, 85, 93, 140, 159, 0)
  }

  function CheckRow70(i: nat): Check
    requires i < 83
    ensures CheckRow70(i).InRange()
  {
    if i == 70 then Check(28, 32, 72, 103, 132, 166, 0)
    else if i == 71 then Check(28, 29, 84, 88, 117, 143, 150)
    else if i == 72 then Check(1, 26, 45, 80, 128, 147, 0)
    else if i == 73 then Check(17, 27, 89, 103, 116, 153, 0)
    else if i == 74 then Check(51, 57, 98, 163, 165, 172, 0)
    else if i == 75 then Check(21, 37, 73, 138, 152, 169, 0)
    else if i == 76 then Check(16, 47, 76, 130, 137, 154, 0)
    else if i == 77 then Check(3, 24, 30, 72, 104, 139, 0)
    else if i == 78 then Check(9, 40, 90, 106, 134, 151, 0)
    else Check(15, 58, 60, 74, 111, 150, 163)
  }

  function CheckRow80(i: nat): Check
    requires i < 83
    ensures CheckRow80(i).InRange()
  {
    if i == 80 then Check(18, 42, 79, 144, 146, 152, 0)
    else if i == 81 then Check(25, 38, 65, 99, 122, 160, 0)
    else Check(17, 42, 75, 129, 170, 172, 0)
  }

  /** Row i of the parity check matrix. */
  function CheckRow(i: nat): Check
    requires i < 83
    ensures CheckRow(i).InRange()
  {
    if i < 10 then CheckRow0(i)
    else if i < 20 then CheckRow10(i)
    else if i < 30 then CheckRow20(i)
    else if i < 40 then CheckRow30(i)
    else if i < 50 then CheckRow40(i)
    else if i < 60 then CheckRow50(i)
    else if i < 70 then CheckRow60(i)
    else if i < 80 then CheckRow70(i)
    else CheckRow80(i)
  }

  /** The count of a row is the number of its entries that are not padding. */
  lemma NumRowsCountsEntries(i: nat)
    requires i < 83
    ensures CheckRow(i).n6 == 0 <==> NumRows(i) == 6
  {
  }

  function BitRow0(i: nat): BitChecks
    requires i < 174
    ensures BitRow0(i).InRange()
  {
    if i == 0 then BitChecks(16, 45, 73)
    else if i == 1 then BitChecks(25, 51, 62)
    else if i == 2 then BitChecks(33, 58, 78)
    else if i == 3 then BitChecks(1, 44, 45)
    else if i == 4 then BitChecks(2, 7, 61)
    else if i == 5 then BitChecks(3, 6, 54)
    else if i == 6 then BitChecks(4, 35, 48)
    else if i == 7 then BitChecks(5, 13, 21)
    else if i == 8 then BitChecks(8, 56, 79)
    else BitChecks(9, 64, 69)
  }

  function BitRow10(i: nat): BitChecks
    requires i < 174
    ensures BitRow10(i).InRange()
  {
    if i == 10 then BitChecks(10, 19, 66)
    else if i == 11 then BitChecks(11, 36, 60)
    else if i == 12 then BitChecks(12, 37, 58)
    else if i == 13 then BitChecks(14, 32, 43)
    else if i == 14 then BitChecks(15, 63, 80)
    else if i == 15 then BitChecks(17, 28, 77)
    else if i == 16 then BitChecks(18, 74, 83)
    else if i == 17 then BitChecks(22, 53, 81)
    else if i == 18 then BitChecks(23, 30, 34)
    else BitChecks(24, 31, 40)
  }

  function BitRow20(i: nat): BitChecks
    requires i < 174
    ensures BitRow20(i).InRange()
  {
    if i == 20 then BitChecks(26, 41, 76)
    else if i == 21 then BitChecks(27, 57, 70)
    else if i == 22 then BitChecks(29, 49, 65)
    else if i == 23 then BitChecks(3, 38, 78)
    else if i == 24 then BitChecks(5, 39, 82)
    else if i == 25 then BitChecks(46, 50, 73)
    else if i == 26 then BitChecks(51, 52, 74)
    else if i == 27 then BitChecks(55, 71, 72)
    else if i == 28 then BitChecks(44, 67, 72)
    else BitChecks(43, 68, 78)
  }

  function BitRow30(i: nat): BitChecks
    requires i < 174
    ensures BitRow30(i).InRange()
  {
    if i == 30 then BitChecks(1, 32, 59)
    else if i == 31 then BitChecks(2, 6, 71)
    else if i == 32 then BitChecks(4, 16, 54)
    else if i == 33 then BitChecks(7, 65, 67)
    else if i == 34 then BitChecks(8, 30, 42)
    else if i == 35 then BitChecks(9, 22, 31)
    else if i == 36 then BitChecks(10, 18, 76)
    else if i == 37 then BitChecks(11, 23, 82)
    else if i == 38 then BitChecks(12, 28, 61)
    else BitChecks(13, 52, 79)
  }

  function BitRow40(i: nat): BitChecks
    requires i < 174
    ensures BitRow40(i).InRange()
  {
    if i == 40 then BitChecks(14, 50, 51)
    else if i == 41 then BitChecks(15, 81, 83)
    else if i == 42 then BitChecks(17, 29, 60)
    else if i == 43 then BitChecks(19, 33, 64)
    else if i == 44 then BitChecks(20, 26, 73)
    else if i == 45 then BitChecks(21, 34, 40)
    else if i == 46 then BitChecks(24, 27, 77)
    else if i == 47 then BitChecks(25, 55, 58)
    else if i == 48 then BitChecks(35, 53, 66)
    else BitChecks(36, 48, 68)
  }

  function BitRow50(i: nat): BitChecks
    requires i < 174
    ensures BitRow50(i).InRange()
  {
    if i == 50 then BitChecks(37, 46, 75)
    else if i == 51 then BitChecks(38, 45, 47)
    else if i == 52 then BitChecks(39, 57, 69)
    else if i == 53 then BitChecks(41, 56, 62)
    else if i == 54 then BitChecks(20, 49, 53)
    else if i == 55 then BitChecks(46, 52, 63)
    else if i == 56 then BitChecks(45, 70, 75)
    else if i == 57 then BitChecks(27, 35, 80)
    else if i == 58 then BitChecks(1, 15, 30)
    else BitChecks(2, 68, 80)
  }

  function BitRow60(i: nat): BitChecks
    requires i < 174
    ensures BitRow60(i).InRange()
  {
    if i == 60 then BitChecks(3, 36, 51)
    else if i == 61 then BitChecks(4, 28, 51)
    else if i == 62 then BitChecks(5, 31, 56)
    else if i == 63 then BitChecks(6, 20, 37)
    else if i == 64 then BitChecks(7, 40, 82)
    else if i == 65 then BitChecks(8, 60, 69)
    else if i == 66 then BitChecks(9, 10, 49)
    else if i == 67 then BitChecks(11, 44, 57)
    else if i == 68 then BitChecks(12, 39, 59)
    else BitChecks(13, 24, 55)
  }

  function BitRow70(i: nat): BitChecks
    requires i < 174
    ensures BitRow70(i).InRange()
  {
    if i == 70 then BitChecks(14, 21, 65)
    else if i == 71 then BitChecks(16, 71, 78)
    else if i == 72 then BitChecks(17, 30, 76)
    else if i == 73 then BitChecks(18, 25, 80)
    else if i == 74 then BitChecks(19, 61, 83)
    else if i == 75 then BitChecks(22, 38, 77)
    else if i == 76 then BitChecks(23, 41, 50)
    else if i == 77 then BitChecks(7, 26, 58)
    else if i == 78 then BitChecks(29, 32, 81)
    else BitChecks(33, 40, 73)
  }

  function BitRow80(i: nat): BitChecks
    requires i < 174
    ensures BitRow80(i).InRange()
  {
    if i == 80 then BitChecks(18, 34, 48)
    else if i == 81 then BitChecks(13, 42, 64)
    else if i == 82 then BitChecks(5, 26, 43)
    else if i == 83 then BitChecks(47, 69, 72)
    else if i == 84 then BitChecks(54, 55, 70)
    else if i == 85 then BitChecks(45, 62, 68)
    else if i == 86 then BitChecks(10, 63, 67)
    else if i == 87 then BitChecks(14, 66, 72)
    else if i == 88 then BitChecks(22, 60, 74)
    else BitChecks(35, 39, 79)
  }

  function BitRow90(i: nat): BitChecks
    requires i < 174
    ensures BitRow90(i).InRange()
  {
    if i == 90 then BitChecks(1, 46, 64)
    else if i == 91 then BitChecks(1, 24, 66)
    else if i == 92 then BitChecks(2, 5, 70)
    else if i == 93 then BitChecks(3, 31, 65)
    else if i == 94 then BitChecks(4, 49, 58)
    else if i == 95 then BitChecks(1, 4, 5)
    else if i == 96 then BitChecks(6, 60, 67)
    else if i == 97 then BitChecks(7, 32, 75)
    else if i == 98 then BitChecks(8, 48, 82)
    else BitChecks(9, 35, 41)
  }

  function BitRow100(i: nat): BitChecks
    requires i < 174
    ensures BitRow100(i).InRange()
  {
    if i == 100 then BitChecks(10, 39, 62)
    else if i == 101 then BitChecks(11, 14, 61)
    else if i == 102 then BitChecks(12, 71, 74)
    else if i == 103 then BitChecks(13, 23, 78)
    else if i == 104 then BitChecks(11, 35, 55)
    else if i == 105 then BitChecks(15, 16, 79)
    else if i == 106 then BitChecks(7, 9, 16)
    else if i == 107 then BitChecks(17, 54, 63)
    else if i == 108 then BitChecks(18, 50, 57)
    else BitChecks(19, 30, 47)
  }

  function BitRow110(i: nat): BitChecks
    requires i < 174
    ensures BitRow110(i).InRange()
  {
    if i == 110 then BitChecks(20, 64, 80)
    else if i == 111 then BitChecks(21, 28, 69)
    else if i == 112 then BitChecks(22, 25, 43)
    else if i == 113 then BitChecks(13, 22, 37)
    else if i == 114 then BitChecks(2, 47, 51)
    else if i == 115 then BitChecks(23, 54, 74)
    else if i == 116 then BitChecks(26, 34, 72)
    else if i == 117 then BitChecks(27, 36, 37)
    else if i == 118 then BitChecks(21, 36, 63)
    else BitChecks(29, 40, 44)
  }

  function BitRow120(i: nat): BitChecks
    requires i < 174
    ensures BitRow120(i).InRange()
  {
    if i == 120 then BitChecks(19, 26, 57)
    else if i == 121 then BitChecks(3, 46, 82)
    else if i == 122 then BitChecks(14, 15, 58)
    else if i == 123 then BitChecks(33, 52, 53)
    else if i == 124 then BitChecks(30, 43, 52)
    else if i == 125 then BitChecks(6, 9, 52)
    else if i == 126 then BitChecks(27, 33, 65)
    else if i == 127 then BitChecks(25, 69, 73)
    else if i == 128 then BitChecks(38, 55, 83)
    else BitChecks(20, 39, 77)
  }

  function BitRow130(i: nat): BitChecks
    requires i < 174
    ensures BitRow130(i).InRange()
  {
    if i == 130 then BitChecks(18, 29, 56)
    else if i == 131 then BitChecks(32, 48, 71)
    else if i == 132 then BitChecks(42, 51, 59)
    else if i == 133 then BitChecks(28, 44, 79)
    else if i == 134 then BitChecks(34, 60, 62)
    else if i == 135 then BitChecks(31, 45, 61)
    else if i == 136 then BitChecks(46, 68, 77)
    else if i == 137 then BitChecks(6, 24, 76)
    else if i == 138 then BitChecks(8, 10, 78)
    else BitChecks(40, 41, 70)
  }

  function BitRow140(i: nat): BitChecks
    requires i < 174
    ensures BitRow140(i).InRange()
  {
    if i == 140 then BitChecks(17, 50, 53)
    else if i == 141 then BitChecks(42, 66, 68)
    else if i == 142 then BitChecks(4, 22, 72)
    else if i == 143 then BitChecks(36, 64, 81)
    else if i == 144 then BitChecks(13, 29, 47)
    else if i == 145 then BitChecks(2, 8, 81)
    else if i == 146 then BitChecks(56, 67, 73)
    else if i == 147 then BitChecks(5, 38, 50)
    else if i == 148 then BitChecks(12, 38, 64)
    else BitChecks(59, 72, 80)
  }

  function BitRow150(i: nat): BitChecks
    requires i < 174
    ensures BitRow150(i).InRange()
  {
    if i == 150 then BitChecks(3, 26, 79)
    else if i == 151 then BitChecks(45, 76, 81)
    else if i == 152 then BitChecks(1, 65, 74)
    else if i == 153 then BitChecks(7, 18, 77)
    else if i == 154 then BitChecks(11, 56, 59)
    else if i == 155 then BitChecks(14, 39, 54)
    else if i == 156 then BitChecks(16, 37, 66)
    else if i == 157 then BitChecks(10, 28, 55)
    else if i == 158 then BitChecks(15, 60, 70)
    else BitChecks(17, 25, 82)
  }

  function BitRow160(i: nat): BitChecks
    requires i < 174
    ensures BitRow160(i).InRange()
  {
    if i == 160 then BitChecks(20, 30, 31)
    else if i == 161 then BitChecks(12, 67, 68)
    else if i == 162 then BitChecks(23, 75, 80)
    else if i == 163 then BitChecks(27, 32, 62)
    else if i == 164 then BitChecks(24, 69, 75)
    else if i == 165 then BitChecks(19, 21, 71)
    else if i == 166 then BitChecks(34, 53, 61)
    else if i == 167 then BitChecks(35, 46, 47)
    else if i == 168 then BitChecks(33, 59, 76)
    else BitChecks(40, 43, 83)
  }

  function BitRow170(i: nat): BitChecks
    requires i < 174
    ensures BitRow170(i).InRange()
  {
    if i == 170 then BitChecks(41, 42, 63)
    else if i == 171 then BitChecks(49, 75, 83)
    else if i == 172 then BitChecks(20, 44, 48)
    else BitChecks(42, 49, 57)
  }

  /** The checks that codeword bit i takes part in. */
  function BitRow(i: nat): BitChecks
    requires i < 174
    ensures BitRow(i).InRange()
  {
    if i < 10 then BitRow0(i)
    else if i < 20 then BitRow10(i)
    else if i < 30 then BitRow20(i)
    else if i < 40 then BitRow30(i)
    else if i < 50 then BitRow40(i)
    else if i < 60 then BitRow50(i)
    else if i < 70 then BitRow60(i)
    else if i < 80 then BitRow70(i)
    else if i < 90 then BitRow80(i)
    else if i < 100 then BitRow90(i)
    else if i < 110 then BitRow100(i)
    else if i < 120 then BitRow110(i)
    else if i < 130 then BitRow120(i)
    else if i < 140 then BitRow130(i)
    else if i < 150 then BitRow140(i)
    else if i < 160 then BitRow150(i)
    else if i < 170 then BitRow160(i)
    else BitRow170(i)
  }
}
