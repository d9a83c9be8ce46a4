/**
 A keyed digest of two blocks: the key of the bytes 0 to 63 and the message of
 the bytes 0 to 127, one of the known-answer tests published with BLAKE2. Unlike
 the short message of module Blake2bVector it depends on every entry of the
 schedule, on the key and on the counter.
 */
module Blake2bKeyed {
  import opened Blake2bSpec
  import opened Blake2bVector

  /** The words of the block that holds the padded key ... */
  const FIRST_WORDS: Vector := [
    0x0706050403020100, 0x0f0e0d0c0b0a0908, 0x1716151413121110, 0x1f1e1d1c1b1a1918,
    0x2726252423222120, 0x2f2e2d2c2b2a2928, 0x3736353433323130, 0x3f3e3d3c3b3a3938,
    0x0000000000000000, 0x0000000000000000, 0x0000000000000000, 0x0000000000000000,
    0x0000000000000000, 0x0000000000000000, 0x0000000000000000, 0x0000000000000000]

  /** ... and of the block that holds the message. */
  const SECOND_WORDS: Vector := [
    0x0706050403020100, 0x0f0e0d0c0b0a0908, 0x1716151413121110, 0x1f1e1d1c1b1a1918,
    0x2726252423222120, 0x2f2e2d2c2b2a2928, 0x3736353433323130, 0x3f3e3d3c3b3a3938,
    0x4746454443424140, 0x4f4e4d4c4b4a4948, 0x5756555453525150, 0x5f5e5d5c5b5a5958,
    0x6766656463626160, 0x6f6e6d6c6b6a6968, 0x7776757473727170, 0x7f7e7d7c7b7a7978]

  predicate HasWord(m: Vector, j: nat, x: Word)
    requires j < 16
  {
    m[j] == x
  }

  lemma FirstWords()
    ensures HasWord(FIRST_WORDS, 0, 0x0706050403020100) &&
            HasWord(FIRST_WORDS, 1, 0x0f0e0d0c0b0a0908) &&
            HasWord(FIRST_WORDS, 2, 0x1716151413121110) &&
            HasWord(FIRST_WORDS, 3, 0x1f1e1d1c1b1a1918) &&
            HasWord(FIRST_WORDS, 4, 0x2726252423222120) &&
            HasWord(FIRST_WORDS, 5, 0x2f2e2d2c2b2a2928) &&
            HasWord(FIRST_WORDS, 6, 0x3736353433323130) &&
            HasWord(FIRST_WORDS, 7, 0x3f3e3d3c3b3a3938) &&
            HasWord(FIRST_WORDS, 8, 0x0000000000000000) &&
            HasWord(FIRST_WORDS, 9, 0x0000000000000000) &&
            HasWord(FIRST_WORDS, 10, 0x0000000000000000) &&
            HasWord(FIRST_WORDS, 11, 0x0000000000000000) &&
            HasWord(FIRST_WORDS, 12, 0x0000000000000000) &&
            HasWord(FIRST_WORDS, 13, 0x0000000000000000) &&
            HasWord(FIRST_WORDS, 14, 0x0000000000000000) &&
            HasWord(FIRST_WORDS, 15, 0x0000000000000000)
  {
  }

  lemma SecondWords()
    ensures HasWord(SECOND_WORDS, 0, 0x0706050403020100) &&
            HasWord(SECOND_WORDS, 1, 0x0f0e0d0c0b0a0908) &&
            HasWord(SECOND_WORDS, 2, 0x1716151413121110) &&
            HasWord(SECOND_WORDS, 3, 0x1f1e1d1c1b1a1918) &&
            HasWord(SECOND_WORDS, 4, 0x2726252423222120) &&
            HasWord(SECOND_WORDS, 5, 0x2f2e2d2c2b2a2928) &&
            HasWord(SECOND_WORDS, 6, 0x3736353433323130) &&
            HasWord(SECOND_WORDS, 7, 0x3f3e3d3c3b3a3938) &&
            HasWord(SECOND_WORDS, 8, 0x4746454443424140) &&
            HasWord(SECOND_WORDS, 9, 0x4f4e4d4c4b4a4948) &&
            HasWord(SECOND_WORDS, 10, 0x5756555453525150) &&
            HasWord(SECOND_WORDS, 11, 0x5f5e5d5c5b5a5958) &&
            HasWord(SECOND_WORDS, 12, 0x6766656463626160) &&
            HasWord(SECOND_WORDS, 13, 0x6f6e6d6c6b6a6968) &&
            HasWord(SECOND_WORDS, 14, 0x7776757473727170) &&
            HasWord(SECOND_WORDS, 15, 0x7f7e7d7c7b7a7978)
  {
  }

  // ---------------------------------------------------------------- the schedule

  predicate Entry(row: nat, k: nat, j: nat)
    requires row < 10 && k < 16
  {
    SigmaInRange(row, k);
    SIGMA[row][k] == j
  }

  lemma Row0()
    ensures Entry(0, 0, 0) && Entry(0, 1, 1) && Entry(0, 2, 2) && Entry(0, 3, 3)
    ensures Entry(0, 4, 4) && Entry(0, 5, 5) && Entry(0, 6, 6) && Entry(0, 7, 7)
    ensures Entry(0, 8, 8) && Entry(0, 9, 9) && Entry(0, 10, 10) && Entry(0, 11, 11)
    ensures Entry(0, 12, 12) && Entry(0, 13, 13) && Entry(0, 14, 14) && Entry(0, 15, 15)
  {
  }

  lemma Row1()
    ensures Entry(1, 0, 14) && Entry(1, 1, 10) && Entry(1, 2, 4) && Entry(1, 3, 8)
    ensures Entry(1, 4, 9) && Entry(1, 5, 15) && Entry(1, 6, 13) && Entry(1, 7, 6)
    ensures Entry(1, 8, 1) && Entry(1, 9, 12) && Entry(1, 10, 0) && Entry(1, 11, 2)
    ensures Entry(1, 12, 11) && Entry(1, 13, 7) && Entry(1, 14, 5) && Entry(1, 15, 3)
  {
  }

  lemma Row2()
    ensures Entry(2, 0, 11) && Entry(2, 1, 8) && Entry(2, 2, 12) && Entry(2, 3, 0)
    ensures Entry(2, 4, 5) && Entry(2, 5, 2) && Entry(2, 6, 15) && Entry(2, 7, 13)
    ensures Entry(2, 8, 10) && Entry(2, 9, 14) && Entry(2, 10, 3) && Entry(2, 11, 6)
    ensures Entry(2, 12, 7) && Entry(2, 13, 1) && Entry(2, 14, 9) && Entry(2, 15, 4)
  {
  }

  lemma Row3()
    ensures Entry(3, 0, 7) && Entry(3, 1, 9) && Entry(3, 2, 3) && Entry(3, 3, 1)
    ensures Entry(3, 4, 13) && Entry(3, 5, 12) && Entry(3, 6, 11) && Entry(3, 7, 14)
    ensures Entry(3, 8, 2) && Entry(3, 9, 6) && Entry(3, 10, 5) && Entry(3, 11, 10)
    ensures Entry(3, 12, 4) && Entry(3, 13, 0) && Entry(3, 14, 15) && Entry(3, 15, 8)
  {
  }

  lemma Row4()
    ensures Entry(4, 0, 9) && Entry(4, 1, 0) && Entry(4, 2, 5) && Entry(4, 3, 7)
    ensures Entry(4, 4, 2) && Entry(4, 5, 4) && Entry(4, 6, 10) && Entry(4, 7, 15)
    ensures Entry(4, 8, 14) && Entry(4, 9, 1) && Entry(4, 10, 11) && Entry(4, 11, 12)
    ensures Entry(4, 12, 6) && Entry(4, 13, 8) && Entry(4, 14, 3) && Entry(4, 15, 13)
  {
  }

  lemma Row5()
    ensures Entry(5, 0, 2) && Entry(5, 1, 12) && Entry(5, 2, 6) && Entry(5, 3, 10)
    ensures Entry(5, 4, 0) && Entry(5, 5, 11) && Entry(5, 6, 8) && Entry(5, 7, 3)
    ensures Entry(5, 8, 4) && Entry(5, 9, 13) && Entry(5, 10, 7) && Entry(5, 11, 5)
    ensures Entry(5, 12, 15) && Entry(5, 13, 14) && Entry(5, 14, 1) && Entry(5, 15, 9)
  {
  }

  lemma Row6()
    ensures Entry(6, 0, 12) && Entry(6, 1, 5) && Entry(6, 2, 1) && Entry(6, 3, 15)
    ensures Entry(6, 4, 14) && Entry(6, 5, 13) && Entry(6, 6, 4) && Entry(6, 7, 10)
    ensures Entry(6, 8, 0) && Entry(6, 9, 7) && Entry(6, 10, 6) && Entry(6, 11, 3)
    ensures Entry(6, 12, 9) && Entry(6, 13, 2) && Entry(6, 14, 8) && Entry(6, 15, 11)
  {
  }

  lemma Row7()
    ensures Entry(7, 0, 13) && Entry(7, 1, 11) && Entry(7, 2, 7) && Entry(7, 3, 14)
    ensures Entry(7, 4, 12) && Entry(7, 5, 1) && Entry(7, 6, 3) && Entry(7, 7, 9)
    ensures Entry(7, 8, 5) && Entry(7, 9, 0) && Entry(7, 10, 15) && Entry(7, 11, 4)
    ensures Entry(7, 12, 8) && Entry(7, 13, 6) && Entry(7, 14, 2) && Entry(7, 15, 10)
  {
  }

  lemma Row8()
    ensures Entry(8, 0, 6) && Entry(8, 1, 15) && Entry(8, 2, 14) && Entry(8, 3, 9)
    ensures Entry(8, 4, 11) && Entry(8, 5, 3) && Entry(8, 6, 0) && Entry(8, 7, 8)
    ensures Entry(8, 8, 12) && Entry(8, 9, 2) && Entry(8, 10, 13) && Entry(8, 11, 7)
    ensures Entry(8, 12, 1) && Entry(8, 13, 4) && Entry(8, 14, 10) && Entry(8, 15, 5)
  {
  }

  lemma Row9()
    ensures Entry(9, 0, 10) && Entry(9, 1, 2) && Entry(9, 2, 8) && Entry(9, 3, 4)
    ensures Entry(9, 4, 7) && Entry(9, 5, 6) && Entry(9, 6, 1) && Entry(9, 7, 5)
    ensures Entry(9, 8, 15) && Entry(9, 9, 11) && Entry(9, 10, 9) && Entry(9, 11, 14)
    ensures Entry(9, 12, 3) && Entry(9, 13, 12) && Entry(9, 14, 13) && Entry(9, 15, 0)
  {
  }

  /** A mixing that adds words `j` and `l` of the block. */
  lemma MixedAt(m: Vector, row: nat, i: nat, j: nat, l: nat, a: Word, b: Word, c: Word, d: Word, x: Word, y: Word,
      r: Four)
    requires row < 10 && i < 8 && Entry(row, 2 * i, j) && Entry(row, 2 * i + 1, l)
    requires j < 16 && l < 16 && HasWord(m, j, x) && HasWord(m, l, y) && Known(a, b, c, d, x, y, r)
    ensures Mixes(m, Four(a, b, c, d), r, row, i)
  {
    hide Known, Mixes, SIGMA;
    MixedWith(m, row, i, a, b, c, d, x, y, r);
  }

  // ---------------------------------------------------------------- the rounds of the two blocks

  const F0: Fours := [
    Four(0x6a09e667f2bd8948, 0x510e527fade682d1, 0x6a09e667f3bcc908, 0x510e527fade68251),
    Four(0xbb67ae8584caa73b, 0x9b05688c2b3e6c1f, 0xbb67ae8584caa73b, 0x9b05688c2b3e6c1f),
    Four(0x3c6ef372fe94f82b, 0x1f83d9abfb41bd6b, 0x3c6ef372fe94f82b, 0x1f83d9abfb41bd6b),
    Four(0xa54ff53a5f1d36f1, 0x5be0cd19137e2179, 0xa54ff53a5f1d36f1, 0x5be0cd19137e2179)]

  const FM1: Fours := [
    Four(0xfce69820f2d7e54c, 0x51324affb424aa90, 0x032368569e359a63, 0x8ad8f2a6176861c7),
    Four(0xfb29447a67d3b4d2, 0xf51fe27e1dfc14d3, 0x94080a0787607d39, 0xf07b130c0c0f9155),
    Four(0x23e097aaf3a9fb3e, 0x0accb7227842d04b, 0xf4ff23aa97a79345, 0xd0d6c459fc776f32),
    Four(0x54f62acbc45ac7a3, 0x0822ecc94f3e3b75, 0x5941806344cc196b, 0xfd3de2458228a7dc)]

  const F1: Fours := [
    Four(0x113f4711f6370dda, 0x16f72fc9d031db29, 0x0f9c03270fd6e278, 0xadf236960d2c63c5),
    Four(0xc1e8e9f6ece8a4c8, 0x0787928649aa6d20, 0xf0ffccadca751ade, 0xbd90f2e99528b09d),
    Four(0xbc0e32ce6ce52ae8, 0x8a80eb13dbef3382, 0x1cfb0531c1b6252b, 0xd8efa5a4cc15ec13),
    Four(0x21acd1149aed697d, 0x3f2d5afa4c542c9b, 0xfeb29bd3e125866a, 0x950083c41ad2f90c)]

  const FM2: Fours := [
    Four(0xd33063a7de0b0d48, 0x1a38955cd2bcb5a3, 0x27e5a6627efc7e94, 0x4d051874e9615bcf),
    Four(0xc199a85b7477f866, 0x7390b7fab316c593, 0x68cb5d474349a797, 0xab2e0d042bce3971),
    Four(0x407e110d85311725, 0x519d1e807fac80f3, 0x51207c6b038af8c2, 0xaf63c4bfa3741b51),
    Four(0xec2b110685c3d9e3, 0x4ceb66c47c8569ac, 0x726f1ca15512a64d, 0x762911b87e127019)]

  const F2: Fours := [
    Four(0xbdc373ef66cb7b77, 0x030f307e8cd0e0fa, 0x4c93194367d0d11a, 0x90970c0ccd236260),
    Four(0x124becb53559433c, 0x249f863e6a33d122, 0x868cfcacd4fc6a71, 0xfa34b940c28cd7b0),
    Four(0x93387b2cf1f780e2, 0x8368830aa49ed717, 0x75bb885fff867705, 0xfce2fb65f6c0abaa),
    Four(0xdbbb553f3158ebd2, 0x1407bebba5ac2f87, 0x214d4a44796fdc58, 0x42615ffad815452d)]

  const FM3: Fours := [
    Four(0x876c25f6510386a5, 0xf91d215f1d34a1ea, 0xba171127d3fd7ac1, 0x2ec4b9d31be70146),
    Four(0x2dd87ebeb3d5bb29, 0x779c6f649cd421cb, 0x542931755f2cb52e, 0x709a70d9bd507f0a),
    Four(0x87755ca7a804734d, 0xf52efe9dfba37250, 0x500763612ee05834, 0xa34bb075762c1129),
    Four(0xadcaf31f311b1ddb, 0x787d296f1cd78f26, 0x82394b93d47dc511, 0x51dba2daad6b9cb9)]

  const F3: Fours := [
    Four(0x66b715424dcef6b1, 0x46357167320ac361, 0xd0d5c66f9d779281, 0x4dd0a782fb84edd2),
    Four(0x76f6bc5381336e7b, 0x6cb583a541907920, 0x47e26bc608c45fc9, 0x597870a679cf6436),
    Four(0xcde03d6e2b9ceaf2, 0xb9c9ac917f1c4068, 0x51f4be35ff3f72d1, 0xbb558b64a3f40690),
    Four(0xb3070d1803331f5e, 0x5ee956c17a16697d, 0xa17e3aee3ce3d68e, 0xc131260b218be31d)]

  const FM4: Fours := [
    Four(0x67604d3d14a86257, 0xd9510b519507866e, 0x179d0cff9317ac3a, 0x063027f753a5b552),
    Four(0xf8ccc5a82f3bf7e0, 0x4164ed5c87efd842, 0xc6462d2905a40204, 0xda525cdda12d7489),
    Four(0xaf3eeee232f9bc9d, 0x3dbb2d22ee46e464, 0x39489273ff63e371, 0xde06a673c3280e05),
    Four(0xc565817a2739fd52, 0x0b68bbf8a324c05e, 0xb6c1405cf8621458, 0xb88099a7eabcf7f8)]

  const F4: Fours := [
    Four(0x4772be211e80165a, 0xfae32ad7cf673259, 0x0bb61c5101a3a46d, 0x87210f56ecddd80c),
    Four(0x145e5ce3bb8abf21, 0xdd9cd02c651895ae, 0xaedb47f7190226ff, 0x9bab24bf32ec6510),
    Four(0x7cd2d87e5e8f0888, 0xec85863c74373ba3, 0x3eaf5129092fd356, 0x692b8d08d2adfa43),
    Four(0xf2615f68baf34393, 0x30923e54c7df9a01, 0x58eafff248c62464, 0xc0500264027019db)]

  const FM5: Fours := [
    Four(0xc91a30f3047110bb, 0xf7706f8ee9c51450, 0x0406753167654d20, 0xf715c820a04cc105),
    Four(0xfc97c472e7b8a9e5, 0xc6a594dfa155e014, 0xff62e695b01a02bc, 0xd76685b6dc955d3a),
    Four(0xea7e588da98113e1, 0x434ac46e95db1ecc, 0x634cddadea6b12e0, 0xed27dd0bf7f540c4),
    Four(0xd951daa6a2ccf480, 0xe57245b8ab522481, 0x44e71e354a5304ac, 0x6b5959f31ee9406f)]

  const F5: Fours := [
    Four(0xa31ce8b789eb8b45, 0x7cf994549c40c2e4, 0xf3795418ad36609d, 0x0df60ce123f7c280),
    Four(0xd13e2a430a774d37, 0x635f66b5fce71ac0, 0x1ad58c9282082e29, 0x9ae2aa3e7590bcb1),
    Four(0xfeae41386cf1cc2e, 0x43cf2b55774306d7, 0x35e0a68227691c0e, 0xcb1944d0cf267113),
    Four(0x1489ae0a73d47143, 0x09fc734a93b40402, 0x30bc34cb374207ed, 0x1764183358176d0d)]

  const FM6: Fours := [
    Four(0x876a4c92f4a3e4ad, 0xb1246a0e04b29147, 0x88af8f75b93ccdd7, 0x7a6c9da3d12bce79),
    Four(0x4a54c237c56535b6, 0x3bf496e9a01ca43e, 0xc37ab77e5adace90, 0x59a50554e7a13454),
    Four(0x89db09b02597a1e2, 0x6586eaf4d1926b03, 0xf294ed6456a9f85c, 0x94a3a1cbaca6a70d),
    Four(0xcde9900ac9e0e82f, 0xe3c31c20dcb2b10f, 0x61a4df89c9670155, 0xd14992768842c002)]

  const F6: Fours := [
    Four(0x54bc14aa79a42e3d, 0xeea54f4a03823036, 0x1c42cd310d73566b, 0x9e636f402d1ea00c),
    Four(0x6c5a3a963579e9a8, 0x1a2f9d07a1b0a351, 0x5fb69f2c9077e76a, 0xada7d7161ffb680f),
    Four(0x32fd795e5c348d22, 0x9a608aa767cdff46, 0xe720c28a1119d59a, 0x2700c23b1add71eb),
    Four(0xb7003fae6b5481ef, 0xb23b3d78a932d8b5, 0x032266528bfb192c, 0xb4eb6b1c7ea34268)]

  const FM7: Fours := [
    Four(0x69e2baa386d58284, 0x1bfe5813e3aa883e, 0xfaac058b2f51bef6, 0x8e3039da44dc5bd7),
    Four(0xae505cf18b34d36a, 0x4dc7113b854fe688, 0x3e5bf0da6ba7ce2d, 0xe0d5539fa2ffb304),
    Four(0x82c2a262244d3704, 0x04bf04ee762186ee, 0xb73b1c2b5b5a69eb, 0xf13a5c1d5fe1ce13),
    Four(0x479bd9494f4c01dd, 0x471930dd0d9390a1, 0x14b6ae90916b4e49, 0xc88a0e91e0e56bc6)]

  const F7: Fours := [
    Four(0xcd9ce40a846e7198, 0x46b0671a6442fe5a, 0xd875c1eaad1f7dc9, 0x08edba8b7ded6069),
    Four(0xcadfadb2041ca623, 0x32932b7f1a9be9f9, 0xc1eb603dbf4d8e30, 0x4aaa47be54bf3e33),
    Four(0xd4a1201e173dca0a, 0x990581f58f68b806, 0x56e74054b7413aa8, 0x16782b5ac10552c3),
    Four(0x464d850dc0637b38, 0x57b5ec40feab1938, 0x8df9397b73ce5d80, 0xafea225ee5c0f24b)]

  const FM8: Fours := [
    Four(0x96de6d504a680f9f, 0xdd21ee469a7ab3db, 0x6c01d5082c8bc640, 0xfe30038262cb56c8),
    Four(0x2fbb116b046fa383, 0x650100c3621310b0, 0xc1897a9c1b755277, 0xf25022f6e60c7274),
    Four(0xf430a647404168d4, 0xaea6a7384e464459, 0xa028a4bba9b3ff90, 0xe19d939376943b9f),
    Four(0xee321b052e9e2c00, 0xfe0dcf053e2a70e2, 0x4e166b18cb604609, 0x8034d1da44c63c55)]

  const F8: Fours := [
    Four(0x306e659a67c067ad, 0x42ae0145e4f4e1c4, 0x92abe25095b3337d, 0xa680c9b3e08389c2),
    Four(0xf9cd5197a9931da1, 0x3d1cf37bd17e14b1, 0x370498139bd22667, 0x8e42618668b91583),
    Four(0xf9e1c37b15edd9f8, 0xa2a12c61ff1d3c93, 0x60d4bceb65a6176e, 0xcabc52037c654624),
    Four(0xf8bdb71145d34770, 0x858df555e3f9f8de, 0x2515e5e0cc358aec, 0x2d48a30d10b8ccf9)]

  const FM9: Fours := [
    Four(0x1bbb7c853ebc70e7, 0x4c7375c7197e9ba8, 0x57515a93326bbb92, 0x254084df8fe6326e),
    Four(0x3b48928b2b5dd0d7, 0x75614b63733080e8, 0x3eeee8c609d4def1, 0xf44228e0b55a93f5),
    Four(0xb58aec6212472ae7, 0x312a6a2f3527c503, 0x617cea7f78b219c5, 0x9739dce4bccd4479),
    Four(0x3cb73e4f2d560ee5, 0x92ebf17a5183de6d, 0x7e107459284722a1, 0x1c8300c0b3f8854f)]

  const F9: Fours := [
    Four(0x0992e213b5136654, 0xcfad8f27231c8d57, 0xeaecc7fd5c37bc7c, 0x8933e56c98e6b307),
    Four(0x0a0f3f52fa35f156, 0xc8dadf20d9e2f418, 0x710a8ce6ea2c3b95, 0xb80bebc086053ee2),
    Four(0x304f07ac9d247a03, 0x51ec084ca82cd893, 0x050d6a869ce51979, 0x3801b52cc243f3b2),
    Four(0x4f352cb7eda150f3, 0xb69e60baae35f5f6, 0xf6a8017a0a604e0d, 0xa17c0b869693388c)]

  const FM10: Fours := [
    Four(0xa8340c3306c9934a, 0x0a1ee885c59a5207, 0x32d2f1a6f94aa78c, 0x071ce8fd4c9f56ba),
    Four(0xe6d593a3e9f25a1a, 0x3c2e9a60df15cfaf, 0x72d21d3b9d3db45b, 0xafa9b4c8482f8313),
    Four(0x6b78837feda90c3c, 0x92641b455114d2ba, 0x3bfb0cb491612663, 0xf42529b0fb0314d1),
    Four(0x0c25bb3c5623c62a, 0x6df28dbc104f1da5, 0x7eecb54f8c3fc3c3, 0x57d23c57cc41e3be)]

  const F10: Fours := [
    Four(0xe8712eed9cf6ff93, 0x12884cfedcb81015, 0x6eba01667a16ee8c, 0x6e3b9c8d66206219),
    Four(0xeb151c4e1c3c282f, 0x9dff8f648758d9ef, 0x8c28ec26ff9e91b0, 0xeaa94dd529abac70),
    Four(0x1ce8e841fb507039, 0x2a37425f23632156, 0xcaf14febf4bbf06d, 0x3899c20a7fff52e3),
    Four(0x22b7731fb082b2eb, 0x95cb711f30518798, 0x64c0cc4b70856bf0, 0x6557c1efafaa2f46)]

  const FM11: Fours := [
    Four(0x7428aa984af402e5, 0x89f1fc940279b219, 0xa7e3e2d1c2043039, 0x1e986eb9d8292530),
    Four(0x3a100a999be60e13, 0xa9e2f82e6b9a23cb, 0xae3650a1ffe9f028, 0x8300a51cb5c7d165),
    Four(0x95d3e7149872433f, 0x40a76c24f30c5702, 0xd80cdc3152f44ce9, 0xcef0abf90758cead),
    Four(0x54ba6b64f5a104b6, 0xb2b629c51acb3821, 0xfc9800572b05c3db, 0xdc2aef162f917f4f)]

  const F11: Fours := [
    Four(0xadc5159f855c462e, 0x0eaf37b0f3e7ba4e, 0xe7111574d382b666, 0xa596e59f16f70731),
    Four(0xb34456d2631ebd91, 0xe52633a75f77fa91, 0x3859abfcf0c64d35, 0x3832889d45f3d068),
    Four(0x8e67eff61be28df7, 0x830d8c10e40f76df, 0x7d2a6b0b6175e236, 0x8ae0e2f8e07f910c),
    Four(0x1dba981d815046e1, 0x459994d1764f49e3, 0xf90a261ba62be313, 0x0bfe34da4c60477d)]

  const FM12: Fours := [
    Four(0x3f59c8a8e46f719a, 0x65f82de9acc05bb9, 0x30196dacbd4b5cc2, 0xd95550eacfe5fd8d),
    Four(0xdf1f53db683f5969, 0x9101208ca3b9c7ea, 0x570e347bd35a63d2, 0x7e697f545af1ef9d),
    Four(0x166d6726b57ef9ef, 0x0e7dc3b28b168a0c, 0x03c90ac6f007b01f, 0x671109e0f2fc2eeb),
    Four(0x353d0713bb3ac66c, 0x13a050ce9fd3955e, 0x93628c97df80ced7, 0xde588ec2d0aad390)]

  const F12: Fours := [
    Four(0x61583f17f6eeb0de, 0xe3a82664afcdf619, 0xf46f91dc643e1eb2, 0x547054f889915f39),
    Four(0x6d4a906972cf180b, 0x1ca1ece5f9fe9da5, 0xfd4031ef48513020, 0xb4b2c35f528df94f),
    Four(0xccfc325dad2b7c13, 0x802b4a97fcdab01a, 0x0fbfbea49f442080, 0x445897ccc7846085),
    Four(0xf615a222cdf72f91, 0x2fbf59e0f1415a79, 0x2184fb8897087a8b, 0xc85d22c1ae0bf7de)]

  const S0: Fours := [
    Four(0xff3e48ac606d2724, 0xe6d620e38bba2bf1, 0x6a09e667f3bcc908, 0x510e527fade683d1),
    Four(0x2b6d0f03be548f10, 0x33164736804d08f5, 0xbb67ae8584caa73b, 0x9b05688c2b3e6c1f),
    Four(0xff2d7f8bccfba4b8, 0xdbf004f0c01f6df4, 0x3c6ef372fe94f82b, 0xe07c265404be4294),
    Four(0x72deac9005e263eb, 0xbc02b6384c348cde, 0xa54ff53a5f1d36f1, 0x5be0cd19137e2179)]

  const SM1: Fours := [
    Four(0x675680ea09d22c41, 0xad51cd1812c2e93d, 0xbd86e3c606ffbbba, 0x10ad2599572eb5c6),
    Four(0xc059907150026920, 0x16f44cc457ad9ed1, 0xa0d82e64c8e2699b, 0x6ae2bad4557bbe9e),
    Four(0xfd57c1f7ddc79814, 0x866e8b1727c7e66f, 0x08d2aea09183c817, 0x17e049d4b0af3ff8),
    Four(0xc572ddc044c6de02, 0xc0e6830ffc2d13ad, 0xc06e49007a550b07, 0x84e75345dd407931)]

  const S1: Fours := [
    Four(0x6c767fd391751d1f, 0x4b698dd6163d5666, 0x373f2d639a487f02, 0x52205130e70a7bff),
    Four(0xcd02f213f54c0765, 0x12d44cc6f9843ca9, 0x5a8ec85d71e60fe7, 0x118b95de4402b290),
    Four(0xfdf2f7bdfdd60133, 0xc28d19207d8fa2ca, 0xdefd39f7ddaad9d1, 0x3f6392a0ab283cb4),
    Four(0xe8f3ac7fc16f56fb, 0xbfc1e50d9eb9eb50, 0xaec0af4af012dc4b, 0x5ca815f40ab0d003)]

  const SM2: Fours := [
    Four(0x08b42eea72b8ee46, 0xdba32ee19bbdb1ff, 0x6fd6c108c99f60fe, 0x3c68f49ab1e00fce),
    Four(0x277e4ae6012183de, 0xfe8b66111ab3825f, 0x267f12aa26b51c5f, 0x75ff728e9d581657),
    Four(0x66516d354a3d3030, 0x3c770c63861fd331, 0x493f17bfcb1d20eb, 0xfcba0bd6bcc47a90),
    Four(0x76863cfe2495d38d, 0x1e91d4e0bc45a3b9, 0xa864e2a07bed2776, 0x3880b7a5474e601e)]

  const S2: Fours := [
    Four(0xd768da42f8303ef0, 0xf6221ab3928943a3, 0xf7f8c007769645f8, 0xc3a41ab7b9fb4a18),
    Four(0x2114ee3a1c8b6b73, 0x14fbd62a8316dcd2, 0xe40fcefc528c8eee, 0x8b9cc3e81b37f6fe),
    Four(0x3f6d202167406660, 0x715e5383e6943062, 0x53c939c3bddc0d8a, 0x65d6e82dade9dfb2),
    Four(0xbf9479cda25ff70b, 0xd82b06eb797d743f, 0xa7ac55198c7c1a65, 0x2b520850c3f1d6fd)]

  const SM3: Fours := [
    Four(0xdefd1638eca16622, 0xd8cb5b625dcbb47d, 0x86a8d310edae92c9, 0x2ec7811587cb03ec),
    Four(0x13230cb5beff288f, 0xa0a9c91e0b3eb993, 0xbef13967bd672123, 0xc2ae0b1053eea814),
    Four(0x96769a3f4ada7098, 0xfc44724f9975b1cb, 0x6144dd7e7273477b, 0x38644361fa67f0f5),
    Four(0x181160c67c4401db, 0xcae84268c4c9c688, 0xf410d4101be550f5, 0xf7be4cb752f9402b)]

  const S3: Fours := [
    Four(0xd679aefb786c950d, 0x2b69911a92f03efd, 0x5bf96c9bd3eb8b9f, 0x1b134cde43f7b93a),
    Four(0xb89bb369b9780627, 0xc04fb509149754bd, 0xe86b82cbad6bc016, 0xbc1fc13e8409e5e2),
    Four(0xd80e5c4587d1aeeb, 0xa36be730e5538dcc, 0x6821de5f338c18c6, 0x4a3c3a0e77b554df),
    Four(0xe53078e02c900028, 0xe734b39dc4057c28, 0x036a118c601f2763, 0xed11cfb29fd5592f)]

  const SM4: Fours := [
    Four(0x7df3a0e8c5916546, 0xb74e9fdae23ca4e4, 0xb62499a742ae5cce, 0x54ca789314909fa3),
    Four(0xbc680e30b7e15dc9, 0xf4ab234f543af0f0, 0x6f05ea3269b098bd, 0x1979d148982e93f7),
    Four(0x857d94fb732836b0, 0xc12d0ba61b54b13f, 0xd3b8fb673a9c77ae, 0xbc5c2a47663bd3fc),
    Four(0x974be27f4f8fd0fa, 0x344e056a0b88fd95, 0x6e36e18595e9f728, 0x969243716ef8895d)]

  const S4: Fours := [
    Four(0xbacc2a61d4db6583, 0xa8572378c68278db, 0xb880000a55f7b441, 0x76874151857ca43c),
    Four(0xaba122ef5c354916, 0xd8fff318d5ee21cb, 0x1de13b31aef83a54, 0xc85d9fd019c0e8b2),
    Four(0xa62ddf52113aa69c, 0xd05299e633dacac6, 0x159ee26d1e3ddde8, 0xe35e1454d302cc06),
    Four(0xdf29efa8be4236cf, 0x0d6c359c7325c8ec, 0xcfaeca6b136fdaf5, 0xffbef8eac47acbfd)]

  const SM5: Fours := [
    Four(0x266e03deed4b0682, 0x2b7f55d73124cb53, 0xf949c95f9b32b875, 0xdcf545ba804429bd),
    Four(0x5844742b29ccc340, 0xce484e1944bf38d3, 0x8212d4b6331b6996, 0x1fa41cc90890525e),
    Four(0x916f79e111f2ab50, 0x1d7d1ab6a465e108, 0xd20c4b2bc49bf73a, 0x31481a4a37957f3a),
    Four(0xab007c330385c83f, 0x7a53aa7f6bb1c107, 0x5abc5122b6881d3f, 0x4a4cebc0e6c5bfd7)]

  const S5: Fours := [
    Four(0xbe560a543d9ade7b, 0x311975d2dc33c67b, 0x14980973b40de7e3, 0x41e0fa66c8a18cc4),
    Four(0x53ae1cbc852ee864, 0x970cdbeefaac369c, 0x4d18eb3875e472fb, 0x6307703abb7dea11),
    Four(0xc87c74a4b74c265a, 0xa283a97ee257b5c6, 0x089d582cf0423fe0, 0x52b442f17df313f9),
    Four(0x3aa0ae63d72ca7d8, 0x5549b970ee7d40e0, 0x46661fa689145387, 0xf2d7fdef05461bfa)]

  const SM6: Fours := [
    Four(0xae7d36695074fe8d, 0x94716b77905f12ed, 0x8aa98e72081e6e51, 0x91d04a3c0cab1711),
    Four(0xf02dfff68bde58c2, 0x58afc2e8f7985a94, 0x5ab19db6feb29a08, 0x0527f85d45d7c928),
    Four(0x7478f0cf6f8eaf6a, 0x374998fe71091000, 0xb8b0bc344f0af0f2, 0xcebc952e3e164f3c),
    Four(0x7d3367367def1b50, 0x32a4be86bb8e498a, 0x9fb6c242042ffc85, 0x4ba6709955345808)]

  const S6: Fours := [
    Four(0x35c701913ab678eb, 0x36d69ff944b6b7a3, 0x2ecd5b14e3bc8d9a, 0x02a106e620ab9b48),
    Four(0x326c96406c2d9eac, 0x29953fef798854cd, 0x049d3eead3261cad, 0xc0e3115eb7e24aba),
    Four(0xf21e0ca66901146c, 0x94d425ee2941c0a0, 0x0ccfea59d8d8bf24, 0x829d28b9e6653811),
    Four(0x0ff79e1cd61fc809, 0xf58c62975a977a14, 0xd6e280141c4133da, 0x16040bdc23d85f43)]

  const SM7: Fours := [
    Four(0xda6c35e2f5f3fe14, 0x70eef8083cbfe40c, 0xef4d7dc3f9a5b0f8, 0xfe1c18083f442356),
    Four(0x85ea401adc053eff, 0x079cd17835fc9ffb, 0x1895b7de753486fb, 0xcc9ac2b7f62177e9),
    Four(0xfdd689d9e56cd960, 0x8b1fe554739fe023, 0x4a7086ce4d82d96d, 0x59d01e06f7b49999),
    Four(0xfc1c45e01709b999, 0x4d3504397ea71513, 0xde8148afd08d8f85, 0x979d8c1d799e2da7)]

  const S7: Fours := [
    Four(0x12139e41ac14e740, 0x338ca84617466a9f, 0xb6de9646f394b5c9, 0x08f46003f9d21f0c),
    Four(0xdd908ad6a9504a5f, 0xc23254a7722e4599, 0x90067d2ab1a46611, 0x6e11d830a32beae9),
    Four(0x814fe379bc2a77f9, 0xa676115f17ca2393, 0x08df7ef5f8ff2c35, 0x16b17dcf4eee41ec),
    Four(0x1d700992ac6d8b9b, 0xf202ca86145d35ce, 0xa5091bb880bbf13c, 0x6702457f2ce9d286)]

  const SM8: Fours := [
    Four(0xde50710f04b2e945, 0x029638c9f88d2f5c, 0xc8a843da86d44308, 0x3ab20947d544b948),
    Four(0xf1e694767620ddb0, 0x0b794e7b6322a5b6, 0x9ed3a57a1a64f1cb, 0x193a0475b7afc730),
    Four(0xf4b21b6e308baf79, 0xbaa8fa4bae40a970, 0x0b23c901390afd3d, 0x888b8d0aa66ea916),
    Four(0x916f87ef3c185da7, 0x2b2586989dbc459f, 0x86028a225a371b11, 0xe9ec66628fe8758a)]

  const S8: Fours := [
    Four(0x242b98ddd8da896c, 0x0ff372186cf1efaa, 0x0eedadd509a9749d, 0xdeef4c26921ce00b),
    Four(0x06be2bccf6b7db96, 0x5fbcd1887a84c336, 0x7f9c778e0c9c4110, 0xa01f789204ad4e57),
    Four(0xdeb7f5c530704321, 0x3806d4e661537296, 0x2bf3cfe77f9ab1d2, 0xfeef9b0ecea6f67e),
    Four(0x7ad7f9a3d5eea628, 0x9d1ce921c4355e08, 0xaf8a901903100095, 0x03b8393c557429c1)]

  const SM9: Fours := [
    Four(0x7d42c19d31035e91, 0xbc05186aef7c7f63, 0x4c6d8fc34b340562, 0x529d97a08bd084b9),
    Four(0x3bc81d1651fdcb74, 0x5c8dd987d8060d1c, 0x20ceb1c3ce07777e, 0xc12fdbca437d2c13),
    Four(0x7351929bb255e790, 0xf4a0ae6bbcd441d6, 0xa4461a4274779f82, 0x549950e96bea3aa7),
    Four(0xcdc2aff8a0bc7254, 0x87f880e0c6116cd8, 0x247dc29aa35c9d88, 0xaca105908309bdfe)]

  const S9: Fours := [
    Four(0x63f69d6ca4d08fd7, 0x249c13b18db76a4e, 0xc99c300dca07e306, 0xd2f8a3ce8506b2db),
    Four(0x5222770d7f917db6, 0x2bbd2008d5fcb8b6, 0xe0f5b6cdf3e8bb4b, 0xbd222ee6b35be262),
    Four(0xeeeac23829154660, 0x34dcb12c7f6e64fb, 0x1e7717cb4facede1, 0x37c58b697059f66f),
    Four(0x030809f943e87a9b, 0xe9e0990c910c49ac, 0xe9635874f5adffb1, 0x8ace8c94ed9f4946)]

  const SM10: Fours := [
    Four(0xa5e1a8757e2666df, 0x467c842f9b9de346, 0x8ddccef928f4fbf9, 0xc363a53d51db7337),
    Four(0xf862b2a5f85f2d8a, 0xcf5d23455e6175c3, 0xebb82085935c2e5f, 0xdf36d3e9276b8058),
    Four(0x9d89375b9e8c019e, 0xdffed1649b1e305b, 0xecb23934ca14f3f6, 0x3a570e6d25a7ca4c),
    Four(0x159a78302f6e696e, 0x378b3d108eb5d0f7, 0x71b0047a631f9a8c, 0x55eb27fbfc395e56)]

  const S10: Fours := [
    Four(0x5e32a7f363bf73a7, 0xc8a0e823742318ba, 0x069902a6233b591c, 0x7e121e7827b06088),
    Four(0x9164f3aa84440a79, 0x489c75a95693c33d, 0xd72532a84f097543, 0x098bc7b7cf421ac2),
    Four(0xa887a4b731c64bea, 0x19c0b7a4bb2b3d47, 0xae593b8b1b2b25ab, 0xd79b95d1c9dadf43),
    Four(0x8600b58a2e91b03a, 0x94ef5ed94a794f82, 0x7edef70d6f9c6f7f, 0x1d6bfa09afbfc2e9)]

  const SM11: Fours := [
    Four(0x62e466f23307426c, 0xd200a9169e75d293, 0xccfc90400222454a, 0xc90e9fb08b1b60cc),
    Four(0x4621ca355586fbef, 0x13f8eb0c32a9b078, 0x3c105b3755d7dc2d, 0x423f648a0e31ad1a),
    Four(0x23a16a3e1d450d5a, 0x545421293696c89b, 0xa12eab05794c5dac, 0x190bfa681f2c23b0),
    Four(0x24d125ea762f3618, 0x29091ee030dd2f17, 0x07e8106696d95c7f, 0x85862753d7ef3962)]

  const S11: Fours := [
    Four(0x692fa9c2a690c4f2, 0x861eb22db6dc40ca, 0x05bad0f689b0f333, 0x1a290876cd017aac),
    Four(0x5c1db817426ec52b, 0x9d201699d64bdae9, 0x2d4780179073d436, 0x79090fea915f23e1),
    Four(0xb05fa194d5cef301, 0xf91f2ff73673c7a8, 0x952dce7f5976aaf2, 0x59fbcb34c35839ec),
    Four(0x5c0f9af34eafe7e6, 0x12b52aa662de31f7, 0x767c8df39c9db62d, 0x74e31633a4849d35)]

  const SM12: Fours := [
    Four(0x00a7b65eaa9e232c, 0xbeb4e8aa8823f010, 0x1dd6fbf0c27da2b8, 0xfa3e1d79bbded673),
    Four(0xfcb4d5646a9377b3, 0xecba4add95c8e2a3, 0x6357b9242190046e, 0x8b8c563737b133f9),
    Four(0x56931327ef2ee935, 0x713778607f814a75, 0x66dccae323e7cef6, 0x3cd9c246293a4e18),
    Four(0xc953fd769db1769a, 0x62851150cfe5a1cc, 0x82a81d942a7412c3, 0x53af712fe3063761)]

  const S12: Fours := [
    Four(0x738372909d21b47d, 0x8809599b58286f36, 0x547fabe11912952b, 0x2c4f1bf87cdec9bf),
    Four(0x4d306985477363fe, 0xab843cdbe1478a3b, 0x1921c5ae058673be, 0x08c8d84fc29a1a91),
    Four(0xf590153a896bdf2a, 0x892e9e80e2ab47eb, 0xda6ee08e1eed815b, 0x3c044abf58079e45),
    Four(0x337a99cd15abed0f, 0x9349fb9055a0a965, 0x05bf4ee8361f2c33, 0xcb1adbf44b2632fe)]

  lemma First1()
    ensures HalfRound(Columns(F0), FIRST_WORDS, 0, 8) == Columns(F1)
  {
    hide HalfRound, Columns, Mixes, HasWord, Entry, FIRST_WORDS, SECOND_WORDS;
    FirstWords();
    Row0();
    MixedAt(FIRST_WORDS, 0, 0, 0, 1, 0x6a09e667f2bd8948, 0x510e527fade682d1, 0x6a09e667f3bcc908, 0x510e527fade68251,
      0x0706050403020100, 0x0f0e0d0c0b0a0908,
      Four(0xfce69820f2d7e54c, 0x51324affb424aa90, 0x032368569e359a63, 0x8ad8f2a6176861c7));
    MixedAt(FIRST_WORDS, 0, 1, 2, 3, 0xbb67ae8584caa73b, 0x9b05688c2b3e6c1f, 0xbb67ae8584caa73b, 0x9b05688c2b3e6c1f,
      0x1716151413121110, 0x1f1e1d1c1b1a1918,
      Four(0xfb29447a67d3b4d2, 0xf51fe27e1dfc14d3, 0x94080a0787607d39, 0xf07b130c0c0f9155));
    MixedAt(FIRST_WORDS, 0, 2, 4, 5, 0x3c6ef372fe94f82b, 0x1f83d9abfb41bd6b, 0x3c6ef372fe94f82b, 0x1f83d9abfb41bd6b,
      0x2726252423222120, 0x2f2e2d2c2b2a2928,
      Four(0x23e097aaf3a9fb3e, 0x0accb7227842d04b, 0xf4ff23aa97a79345, 0xd0d6c459fc776f32));
    MixedAt(FIRST_WORDS, 0, 3, 6, 7, 0xa54ff53a5f1d36f1, 0x5be0cd19137e2179, 0xa54ff53a5f1d36f1, 0x5be0cd19137e2179,
      0x3736353433323130, 0x3f3e3d3c3b3a3938,
      Four(0x54f62acbc45ac7a3, 0x0822ecc94f3e3b75, 0x5941806344cc196b, 0xfd3de2458228a7dc));
    MixedAt(FIRST_WORDS, 0, 4, 8, 9, 0xfce69820f2d7e54c, 0xf51fe27e1dfc14d3, 0xf4ff23aa97a79345, 0xfd3de2458228a7dc,
      0x0000000000000000, 0x0000000000000000,
      Four(0x113f4711f6370dda, 0x0787928649aa6d20, 0x1cfb0531c1b6252b, 0x950083c41ad2f90c));
    MixedAt(FIRST_WORDS, 0, 5, 10, 11, 0xfb29447a67d3b4d2, 0x0accb7227842d04b, 0x5941806344cc196b, 0x8ad8f2a6176861c7,
      0x0000000000000000, 0x0000000000000000,
      Four(0xc1e8e9f6ece8a4c8, 0x8a80eb13dbef3382, 0xfeb29bd3e125866a, 0xadf236960d2c63c5));
    MixedAt(FIRST_WORDS, 0, 6, 12, 13, 0x23e097aaf3a9fb3e, 0x0822ecc94f3e3b75, 0x032368569e359a63, 0xf07b130c0c0f9155,
      0x0000000000000000, 0x0000000000000000,
      Four(0xbc0e32ce6ce52ae8, 0x3f2d5afa4c542c9b, 0x0f9c03270fd6e278, 0xbd90f2e99528b09d));
    MixedAt(FIRST_WORDS, 0, 7, 14, 15, 0x54f62acbc45ac7a3, 0x51324affb424aa90, 0x94080a0787607d39, 0xd0d6c459fc776f32,
      0x0000000000000000, 0x0000000000000000,
      Four(0x21acd1149aed697d, 0x16f72fc9d031db29, 0xf0ffccadca751ade, 0xd8efa5a4cc15ec13));
    RoundOf(FIRST_WORDS, F0, FM1, F1, 0);
  }

  lemma First2()
    ensures HalfRound(Columns(F1), FIRST_WORDS, 1, 8) == Columns(F2)
  {
    hide HalfRound, Columns, Mixes, HasWord, Entry, FIRST_WORDS, SECOND_WORDS;
    FirstWords();
    Row1();
    MixedAt(FIRST_WORDS, 1, 0, 14, 10, 0x113f4711f6370dda, 0x16f72fc9d031db29, 0x0f9c03270fd6e278, 0xadf236960d2c63c5,
      0x0000000000000000, 0x0000000000000000,
      Four(0xd33063a7de0b0d48, 0x1a38955cd2bcb5a3, 0x27e5a6627efc7e94, 0x4d051874e9615bcf));
    MixedAt(FIRST_WORDS, 1, 1, 4, 8, 0xc1e8e9f6ece8a4c8, 0x0787928649aa6d20, 0xf0ffccadca751ade, 0xbd90f2e99528b09d,
      0x2726252423222120, 0x0000000000000000,
      Four(0xc199a85b7477f866, 0x7390b7fab316c593, 0x68cb5d474349a797, 0xab2e0d042bce3971));
    MixedAt(FIRST_WORDS, 1, 2, 9, 15, 0xbc0e32ce6ce52ae8, 0x8a80eb13dbef3382, 0x1cfb0531c1b6252b, 0xd8efa5a4cc15ec13,
      0x0000000000000000, 0x0000000000000000,
      Four(0x407e110d85311725, 0x519d1e807fac80f3, 0x51207c6b038af8c2, 0xaf63c4bfa3741b51));
    MixedAt(FIRST_WORDS, 1, 3, 13, 6, 0x21acd1149aed697d, 0x3f2d5afa4c542c9b, 0xfeb29bd3e125866a, 0x950083c41ad2f90c,
      0x0000000000000000, 0x3736353433323130,
      Four(0xec2b110685c3d9e3, 0x4ceb66c47c8569ac, 0x726f1ca15512a64d, 0x762911b87e127019));
    MixedAt(FIRST_WORDS, 1, 4, 1, 12, 0xd33063a7de0b0d48, 0x7390b7fab316c593, 0x51207c6b038af8c2, 0x762911b87e127019,
      0x0f0e0d0c0b0a0908, 0x0000000000000000,
      Four(0xbdc373ef66cb7b77, 0x249f863e6a33d122, 0x75bb885fff867705, 0x42615ffad815452d));
    MixedAt(FIRST_WORDS, 1, 5, 0, 2, 0xc199a85b7477f866, 0x519d1e807fac80f3, 0x726f1ca15512a64d, 0x4d051874e9615bcf,
      0x0706050403020100, 0x1716151413121110,
      Four(0x124becb53559433c, 0x8368830aa49ed717, 0x214d4a44796fdc58, 0x90970c0ccd236260));
    MixedAt(FIRST_WORDS, 1, 6, 11, 7, 0x407e110d85311725, 0x4ceb66c47c8569ac, 0x27e5a6627efc7e94, 0xab2e0d042bce3971,
      0x0000000000000000, 0x3f3e3d3c3b3a3938,
      Four(0x93387b2cf1f780e2, 0x1407bebba5ac2f87, 0x4c93194367d0d11a, 0xfa34b940c28cd7b0));
    MixedAt(FIRST_WORDS, 1, 7, 5, 3, 0xec2b110685c3d9e3, 0x1a38955cd2bcb5a3, 0x68cb5d474349a797, 0xaf63c4bfa3741b51,
      0x2f2e2d2c2b2a2928, 0x1f1e1d1c1b1a1918,
      Four(0xdbbb553f3158ebd2, 0x030f307e8cd0e0fa, 0x868cfcacd4fc6a71, 0xfce2fb65f6c0abaa));
    RoundOf(FIRST_WORDS, F1, FM2, F2, 1);
  }

  lemma First3()
    ensures HalfRound(Columns(F2), FIRST_WORDS, 2, 8) == Columns(F3)
  {
    hide HalfRound, Columns, Mixes, HasWord, Entry, FIRST_WORDS, SECOND_WORDS;
    FirstWords();
    Row2();
    MixedAt(FIRST_WORDS, 2, 0, 11, 8, 0xbdc373ef66cb7b77, 0x030f307e8cd0e0fa, 0x4c93194367d0d11a, 0x90970c0ccd236260,
      0x0000000000000000, 0x0000000000000000,
      Four(0x876c25f6510386a5, 0xf91d215f1d34a1ea, 0xba171127d3fd7ac1, 0x2ec4b9d31be70146));
    MixedAt(FIRST_WORDS, 2, 1, 12, 0, 0x124becb53559433c, 0x249f863e6a33d122, 0x868cfcacd4fc6a71, 0xfa34b940c28cd7b0,
      0x0000000000000000, 0x0706050403020100,
      Four(0x2dd87ebeb3d5bb29, 0x779c6f649cd421cb, 0x542931755f2cb52e, 0x709a70d9bd507f0a));
    MixedAt(FIRST_WORDS, 2, 2, 5, 2, 0x93387b2cf1f780e2, 0x8368830aa49ed717, 0x75bb885fff867705, 0xfce2fb65f6c0abaa,
      0x2f2e2d2c2b2a2928, 0x1716151413121110,
      Four(0x87755ca7a804734d, 0xf52efe9dfba37250, 0x500763612ee05834, 0xa34bb075762c1129));
    MixedAt(FIRST_WORDS, 2, 3, 15, 13, 0xdbbb553f3158ebd2, 0x1407bebba5ac2f87, 0x214d4a44796fdc58, 0x42615ffad815452d,
      0x0000000000000000, 0x0000000000000000,
      Four(0xadcaf31f311b1ddb, 0x787d296f1cd78f26, 0x82394b93d47dc511, 0x51dba2daad6b9cb9));
    MixedAt(FIRST_WORDS, 2, 4, 10, 14, 0x876c25f6510386a5, 0x779c6f649cd421cb, 0x500763612ee05834, 0x51dba2daad6b9cb9,
      0x0000000000000000, 0x0000000000000000,
      Four(0x66b715424dcef6b1, 0x6cb583a541907920, 0x51f4be35ff3f72d1, 0xc131260b218be31d));
    MixedAt(FIRST_WORDS, 2, 5, 3, 6, 0x2dd87ebeb3d5bb29, 0xf52efe9dfba37250, 0x82394b93d47dc511, 0x2ec4b9d31be70146,
      0x1f1e1d1c1b1a1918, 0x3736353433323130,
      Four(0x76f6bc5381336e7b, 0xb9c9ac917f1c4068, 0xa17e3aee3ce3d68e, 0x4dd0a782fb84edd2));
    MixedAt(FIRST_WORDS, 2, 6, 7, 1, 0x87755ca7a804734d, 0x787d296f1cd78f26, 0xba171127d3fd7ac1, 0x709a70d9bd507f0a,
      0x3f3e3d3c3b3a3938, 0x0f0e0d0c0b0a0908,
      Four(0xcde03d6e2b9ceaf2, 0x5ee956c17a16697d, 0xd0d5c66f9d779281, 0x597870a679cf6436));
    MixedAt(FIRST_WORDS, 2, 7, 9, 4, 0xadcaf31f311b1ddb, 0xf91d215f1d34a1ea, 0x542931755f2cb52e, 0xa34bb075762c1129,
      0x0000000000000000, 0x2726252423222120,
      Four(0xb3070d1803331f5e, 0x46357167320ac361, 0x47e26bc608c45fc9, 0xbb558b64a3f40690));
    RoundOf(FIRST_WORDS, F2, FM3, F3, 2);
  }

  lemma First4()
    ensures HalfRound(Columns(F3), FIRST_WORDS, 3, 8) == Columns(F4)
  {
    hide HalfRound, Columns, Mixes, HasWord, Entry, FIRST_WORDS, SECOND_WORDS;
    FirstWords();
    Row3();
    MixedAt(FIRST_WORDS, 3, 0, 7, 9, 0x66b715424dcef6b1, 0x46357167320ac361, 0xd0d5c66f9d779281, 0x4dd0a782fb84edd2,
      0x3f3e3d3c3b3a3938, 0x0000000000000000,
      Four(0x67604d3d14a86257, 0xd9510b519507866e, 0x179d0cff9317ac3a, 0x063027f753a5b552));
    MixedAt(FIRST_WORDS, 3, 1, 3, 1, 0x76f6bc5381336e7b, 0x6cb583a541907920, 0x47e26bc608c45fc9, 0x597870a679cf6436,
      0x1f1e1d1c1b1a1918, 0x0f0e0d0c0b0a0908,
      Four(0xf8ccc5a82f3bf7e0, 0x4164ed5c87efd842, 0xc6462d2905a40204, 0xda525cdda12d7489));
    MixedAt(FIRST_WORDS, 3, 2, 13, 12, 0xcde03d6e2b9ceaf2, 0xb9c9ac917f1c4068, 0x51f4be35ff3f72d1, 0xbb558b64a3f40690,
      0x0000000000000000, 0x0000000000000000,
      Four(0xaf3eeee232f9bc9d, 0x3dbb2d22ee46e464, 0x39489273ff63e371, 0xde06a673c3280e05));
    MixedAt(FIRST_WORDS, 3, 3, 11, 14, 0xb3070d1803331f5e, 0x5ee956c17a16697d, 0xa17e3aee3ce3d68e, 0xc131260b218be31d,
      0x0000000000000000, 0x0000000000000000,
      Four(0xc565817a2739fd52, 0x0b68bbf8a324c05e, 0xb6c1405cf8621458, 0xb88099a7eabcf7f8));
    MixedAt(FIRST_WORDS, 3, 4, 2, 6, 0x67604d3d14a86257, 0x4164ed5c87efd842, 0x39489273ff63e371, 0xb88099a7eabcf7f8,
      0x1716151413121110, 0x3736353433323130,
      Four(0x4772be211e80165a, 0xdd9cd02c651895ae, 0x3eaf5129092fd356, 0xc0500264027019db));
    MixedAt(FIRST_WORDS, 3, 5, 5, 10, 0xf8ccc5a82f3bf7e0, 0x3dbb2d22ee46e464, 0xb6c1405cf8621458, 0x063027f753a5b552,
      0x2f2e2d2c2b2a2928, 0x0000000000000000,
      Four(0x145e5ce3bb8abf21, 0xec85863c74373ba3, 0x58eafff248c62464, 0x87210f56ecddd80c));
    MixedAt(FIRST_WORDS, 3, 6, 4, 0, 0xaf3eeee232f9bc9d, 0x0b68bbf8a324c05e, 0x179d0cff9317ac3a, 0xda525cdda12d7489,
      0x2726252423222120, 0x0706050403020100,
      Four(0x7cd2d87e5e8f0888, 0x30923e54c7df9a01, 0x0bb61c5101a3a46d, 0x9bab24bf32ec6510));
    MixedAt(FIRST_WORDS, 3, 7, 15, 8, 0xc565817a2739fd52, 0xd9510b519507866e, 0xc6462d2905a40204, 0xde06a673c3280e05,
      0x0000000000000000, 0x0000000000000000,
      Four(0xf2615f68baf34393, 0xfae32ad7cf673259, 0xaedb47f7190226ff, 0x692b8d08d2adfa43));
    RoundOf(FIRST_WORDS, F3, FM4, F4, 3);
  }

  lemma First5()
    ensures HalfRound(Columns(F4), FIRST_WORDS, 4, 8) == Columns(F5)
  {
    hide HalfRound, Columns, Mixes, HasWord, Entry, FIRST_WORDS, SECOND_WORDS;
    FirstWords();
    Row4();
    MixedAt(FIRST_WORDS, 4, 0, 9, 0, 0x4772be211e80165a, 0xfae32ad7cf673259, 0x0bb61c5101a3a46d, 0x87210f56ecddd80c,
      0x0000000000000000, 0x0706050403020100,
      Four(0xc91a30f3047110bb, 0xf7706f8ee9c51450, 0x0406753167654d20, 0xf715c820a04cc105));
    MixedAt(FIRST_WORDS, 4, 1, 5, 7, 0x145e5ce3bb8abf21, 0xdd9cd02c651895ae, 0xaedb47f7190226ff, 0x9bab24bf32ec6510,
      0x2f2e2d2c2b2a2928, 0x3f3e3d3c3b3a3938,
      Four(0xfc97c472e7b8a9e5, 0xc6a594dfa155e014, 0xff62e695b01a02bc, 0xd76685b6dc955d3a));
    MixedAt(FIRST_WORDS, 4, 2, 2, 4, 0x7cd2d87e5e8f0888, 0xec85863c74373ba3, 0x3eaf5129092fd356, 0x692b8d08d2adfa43,
      0x1716151413121110, 0x2726252423222120,
      Four(0xea7e588da98113e1, 0x434ac46e95db1ecc, 0x634cddadea6b12e0, 0xed27dd0bf7f540c4));
    MixedAt(FIRST_WORDS, 4, 3, 10, 15, 0xf2615f68baf34393, 0x30923e54c7df9a01, 0x58eafff248c62464, 0xc0500264027019db,
      0x0000000000000000, 0x0000000000000000,
      Four(0xd951daa6a2ccf480, 0xe57245b8ab522481, 0x44e71e354a5304ac, 0x6b5959f31ee9406f));
    MixedAt(FIRST_WORDS, 4, 4, 14, 1, 0xc91a30f3047110bb, 0xc6a594dfa155e014, 0x634cddadea6b12e0, 0x6b5959f31ee9406f,
      0x0000000000000000, 0x0f0e0d0c0b0a0908,
      Four(0xa31ce8b789eb8b45, 0x635f66b5fce71ac0, 0x35e0a68227691c0e, 0x1764183358176d0d));
    MixedAt(FIRST_WORDS, 4, 5, 11, 12, 0xfc97c472e7b8a9e5, 0x434ac46e95db1ecc, 0x44e71e354a5304ac, 0xf715c820a04cc105,
      0x0000000000000000, 0x0000000000000000,
      Four(0xd13e2a430a774d37, 0x43cf2b55774306d7, 0x30bc34cb374207ed, 0x0df60ce123f7c280));
    MixedAt(FIRST_WORDS, 4, 6, 6, 8, 0xea7e588da98113e1, 0xe57245b8ab522481, 0x0406753167654d20, 0xd76685b6dc955d3a,
      0x3736353433323130, 0x0000000000000000,
      Four(0xfeae41386cf1cc2e, 0x09fc734a93b40402, 0xf3795418ad36609d, 0x9ae2aa3e7590bcb1));
    MixedAt(FIRST_WORDS, 4, 7, 3, 13, 0xd951daa6a2ccf480, 0xf7706f8ee9c51450, 0xff62e695b01a02bc, 0xed27dd0bf7f540c4,
      0x1f1e1d1c1b1a1918, 0x0000000000000000,
      Four(0x1489ae0a73d47143, 0x7cf994549c40c2e4, 0x1ad58c9282082e29, 0xcb1944d0cf267113));
    RoundOf(FIRST_WORDS, F4, FM5, F5, 4);
  }

  lemma First6()
    ensures HalfRound(Columns(F5), FIRST_WORDS, 5, 8) == Columns(F6)
  {
    hide HalfRound, Columns, Mixes, HasWord, Entry, FIRST_WORDS, SECOND_WORDS;
    FirstWords();
    Row5();
    MixedAt(FIRST_WORDS, 5, 0, 2, 12, 0xa31ce8b789eb8b45, 0x7cf994549c40c2e4, 0xf3795418ad36609d, 0x0df60ce123f7c280,
      0x1716151413121110, 0x0000000000000000,
      Four(0x876a4c92f4a3e4ad, 0xb1246a0e04b29147, 0x88af8f75b93ccdd7, 0x7a6c9da3d12bce79));
    MixedAt(FIRST_WORDS, 5, 1, 6, 10, 0xd13e2a430a774d37, 0x635f66b5fce71ac0, 0x1ad58c9282082e29, 0x9ae2aa3e7590bcb1,
      0x3736353433323130, 0x0000000000000000,
      Four(0x4a54c237c56535b6, 0x3bf496e9a01ca43e, 0xc37ab77e5adace90, 0x59a50554e7a13454));
    MixedAt(FIRST_WORDS, 5, 2, 0, 11, 0xfeae41386cf1cc2e, 0x43cf2b55774306d7, 0x35e0a68227691c0e, 0xcb1944d0cf267113,
      0x0706050403020100, 0x0000000000000000,
      Four(0x89db09b02597a1e2, 0x6586eaf4d1926b03, 0xf294ed6456a9f85c, 0x94a3a1cbaca6a70d));
    MixedAt(FIRST_WORDS, 5, 3, 8, 3, 0x1489ae0a73d47143, 0x09fc734a93b40402, 0x30bc34cb374207ed, 0x1764183358176d0d,
      0x0000000000000000, 0x1f1e1d1c1b1a1918,
      Four(0xcde9900ac9e0e82f, 0xe3c31c20dcb2b10f, 0x61a4df89c9670155, 0xd14992768842c002));
    MixedAt(FIRST_WORDS, 5, 4, 4, 13, 0x876a4c92f4a3e4ad, 0x3bf496e9a01ca43e, 0xf294ed6456a9f85c, 0xd14992768842c002,
      0x2726252423222120, 0x0000000000000000,
      Four(0x54bc14aa79a42e3d, 0x1a2f9d07a1b0a351, 0xe720c28a1119d59a, 0xb4eb6b1c7ea34268));
    MixedAt(FIRST_WORDS, 5, 5, 7, 5, 0x4a54c237c56535b6, 0x6586eaf4d1926b03, 0x61a4df89c9670155, 0x7a6c9da3d12bce79,
      0x3f3e3d3c3b3a3938, 0x2f2e2d2c2b2a2928,
      Four(0x6c5a3a963579e9a8, 0x9a608aa767cdff46, 0x032266528bfb192c, 0x9e636f402d1ea00c));
    MixedAt(FIRST_WORDS, 5, 6, 15, 14, 0x89db09b02597a1e2, 0xe3c31c20dcb2b10f, 0x88af8f75b93ccdd7, 0x59a50554e7a13454,
      0x0000000000000000, 0x0000000000000000,
      Four(0x32fd795e5c348d22, 0xb23b3d78a932d8b5, 0x1c42cd310d73566b, 0xada7d7161ffb680f));
    MixedAt(FIRST_WORDS, 5, 7, 1, 9, 0xcde9900ac9e0e82f, 0xb1246a0e04b29147, 0xc37ab77e5adace90, 0x94a3a1cbaca6a70d,
      0x0f0e0d0c0b0a0908, 0x0000000000000000,
      Four(0xb7003fae6b5481ef, 0xeea54f4a03823036, 0x5fb69f2c9077e76a, 0x2700c23b1add71eb));
    RoundOf(FIRST_WORDS, F5, FM6, F6, 5);
  }

  lemma First7()
    ensures HalfRound(Columns(F6), FIRST_WORDS, 6, 8) == Columns(F7)
  {
    hide HalfRound, Columns, Mixes, HasWord, Entry, FIRST_WORDS, SECOND_WORDS;
    FirstWords();
    Row6();
    MixedAt(FIRST_WORDS, 6, 0, 12, 5, 0x54bc14aa79a42e3d, 0xeea54f4a03823036, 0x1c42cd310d73566b, 0x9e636f402d1ea00c,
      0x0000000000000000, 0x2f2e2d2c2b2a2928,
      Four(0x69e2baa386d58284, 0x1bfe5813e3aa883e, 0xfaac058b2f51bef6, 0x8e3039da44dc5bd7));
    MixedAt(FIRST_WORDS, 6, 1, 1, 15, 0x6c5a3a963579e9a8, 0x1a2f9d07a1b0a351, 0x5fb69f2c9077e76a, 0xada7d7161ffb680f,
      0x0f0e0d0c0b0a0908, 0x0000000000000000,
      Four(0xae505cf18b34d36a, 0x4dc7113b854fe688, 0x3e5bf0da6ba7ce2d, 0xe0d5539fa2ffb304));
    MixedAt(FIRST_WORDS, 6, 2, 14, 13, 0x32fd795e5c348d22, 0x9a608aa767cdff46, 0xe720c28a1119d59a, 0x2700c23b1add71eb,
      0x0000000000000000, 0x0000000000000000,
      Four(0x82c2a262244d3704, 0x04bf04ee762186ee, 0xb73b1c2b5b5a69eb, 0xf13a5c1d5fe1ce13));
    MixedAt(FIRST_WORDS, 6, 3, 4, 10, 0xb7003fae6b5481ef, 0xb23b3d78a932d8b5, 0x032266528bfb192c, 0xb4eb6b1c7ea34268,
      0x2726252423222120, 0x0000000000000000,
      Four(0x479bd9494f4c01dd, 0x471930dd0d9390a1, 0x14b6ae90916b4e49, 0xc88a0e91e0e56bc6));
    MixedAt(FIRST_WORDS, 6, 4, 0, 7, 0x69e2baa386d58284, 0x4dc7113b854fe688, 0xb73b1c2b5b5a69eb, 0xc88a0e91e0e56bc6,
      0x0706050403020100, 0x3f3e3d3c3b3a3938,
      Four(0xcd9ce40a846e7198, 0x32932b7f1a9be9f9, 0x56e74054b7413aa8, 0xafea225ee5c0f24b));
    MixedAt(FIRST_WORDS, 6, 5, 6, 3, 0xae505cf18b34d36a, 0x04bf04ee762186ee, 0x14b6ae90916b4e49, 0x8e3039da44dc5bd7,
      0x3736353433323130, 0x1f1e1d1c1b1a1918,
      Four(0xcadfadb2041ca623, 0x990581f58f68b806, 0x8df9397b73ce5d80, 0x08edba8b7ded6069));
    MixedAt(FIRST_WORDS, 6, 6, 9, 2, 0x82c2a262244d3704, 0x471930dd0d9390a1, 0xfaac058b2f51bef6, 0xe0d5539fa2ffb304,
      0x0000000000000000, 0x1716151413121110,
      Four(0xd4a1201e173dca0a, 0x57b5ec40feab1938, 0xd875c1eaad1f7dc9, 0x4aaa47be54bf3e33));
    MixedAt(FIRST_WORDS, 6, 7, 8, 11, 0x479bd9494f4c01dd, 0x1bfe5813e3aa883e, 0x3e5bf0da6ba7ce2d, 0xf13a5c1d5fe1ce13,
      0x0000000000000000, 0x0000000000000000,
      Four(0x464d850dc0637b38, 0x46b0671a6442fe5a, 0xc1eb603dbf4d8e30, 0x16782b5ac10552c3));
    RoundOf(FIRST_WORDS, F6, FM7, F7, 6);
  }

  lemma First8()
    ensures HalfRound(Columns(F7), FIRST_WORDS, 7, 8) == Columns(F8)
  {
    hide HalfRound, Columns, Mixes, HasWord, Entry, FIRST_WORDS, SECOND_WORDS;
    FirstWords();
    Row7();
    MixedAt(FIRST_WORDS, 7, 0, 13, 11, 0xcd9ce40a846e7198, 0x46b0671a6442fe5a, 0xd875c1eaad1f7dc9, 0x08edba8b7ded6069,
      0x0000000000000000, 0x0000000000000000,
      Four(0x96de6d504a680f9f, 0xdd21ee469a7ab3db, 0x6c01d5082c8bc640, 0xfe30038262cb56c8));
    MixedAt(FIRST_WORDS, 7, 1, 7, 14, 0xcadfadb2041ca623, 0x32932b7f1a9be9f9, 0xc1eb603dbf4d8e30, 0x4aaa47be54bf3e33,
      0x3f3e3d3c3b3a3938, 0x0000000000000000,
      Four(0x2fbb116b046fa383, 0x650100c3621310b0, 0xc1897a9c1b755277, 0xf25022f6e60c7274));
    MixedAt(FIRST_WORDS, 7, 2, 12, 1, 0xd4a1201e173dca0a, 0x990581f58f68b806, 0x56e74054b7413aa8, 0x16782b5ac10552c3,
      0x0000000000000000, 0x0f0e0d0c0b0a0908,
      Four(0xf430a647404168d4, 0xaea6a7384e464459, 0xa028a4bba9b3ff90, 0xe19d939376943b9f));
    MixedAt(FIRST_WORDS, 7, 3, 3, 9, 0x464d850dc0637b38, 0x57b5ec40feab1938, 0x8df9397b73ce5d80, 0xafea225ee5c0f24b,
      0x1f1e1d1c1b1a1918, 0x0000000000000000,
      Four(0xee321b052e9e2c00, 0xfe0dcf053e2a70e2, 0x4e166b18cb604609, 0x8034d1da44c63c55));
    MixedAt(FIRST_WORDS, 7, 4, 5, 0, 0x96de6d504a680f9f, 0x650100c3621310b0, 0xa028a4bba9b3ff90, 0x8034d1da44c63c55,
      0x2f2e2d2c2b2a2928, 0x0706050403020100,
      Four(0x306e659a67c067ad, 0x3d1cf37bd17e14b1, 0x60d4bceb65a6176e, 0x2d48a30d10b8ccf9));
    MixedAt(FIRST_WORDS, 7, 5, 15, 4, 0x2fbb116b046fa383, 0xaea6a7384e464459, 0x4e166b18cb604609, 0xfe30038262cb56c8,
      0x0000000000000000, 0x2726252423222120,
      Four(0xf9cd5197a9931da1, 0xa2a12c61ff1d3c93, 0x2515e5e0cc358aec, 0xa680c9b3e08389c2));
    MixedAt(FIRST_WORDS, 7, 6, 8, 6, 0xf430a647404168d4, 0xfe0dcf053e2a70e2, 0x6c01d5082c8bc640, 0xf25022f6e60c7274,
      0x0000000000000000, 0x3736353433323130,
      Four(0xf9e1c37b15edd9f8, 0x858df555e3f9f8de, 0x92abe25095b3337d, 0x8e42618668b91583));
    MixedAt(FIRST_WORDS, 7, 7, 2, 10, 0xee321b052e9e2c00, 0xdd21ee469a7ab3db, 0xc1897a9c1b755277, 0xe19d939376943b9f,
      0x1716151413121110, 0x0000000000000000,
      Four(0xf8bdb71145d34770, 0x42ae0145e4f4e1c4, 0x370498139bd22667, 0xcabc52037c654624));
    RoundOf(FIRST_WORDS, F7, FM8, F8, 7);
  }

  lemma First9()
    ensures HalfRound(Columns(F8), FIRST_WORDS, 8, 8) == Columns(F9)
  {
    hide HalfRound, Columns, Mixes, HasWord, Entry, FIRST_WORDS, SECOND_WORDS;
    FirstWords();
    Row8();
    MixedAt(FIRST_WORDS, 8, 0, 6, 15, 0x306e659a67c067ad, 0x42ae0145e4f4e1c4, 0x92abe25095b3337d, 0xa680c9b3e08389c2,
      0x3736353433323130, 0x0000000000000000,
      Four(0x1bbb7c853ebc70e7, 0x4c7375c7197e9ba8, 0x57515a93326bbb92, 0x254084df8fe6326e));
    MixedAt(FIRST_WORDS, 8, 1, 14, 9, 0xf9cd5197a9931da1, 0x3d1cf37bd17e14b1, 0x370498139bd22667, 0x8e42618668b91583,
      0x0000000000000000, 0x0000000000000000,
      Four(0x3b48928b2b5dd0d7, 0x75614b63733080e8, 0x3eeee8c609d4def1, 0xf44228e0b55a93f5));
    MixedAt(FIRST_WORDS, 8, 2, 11, 3, 0xf9e1c37b15edd9f8, 0xa2a12c61ff1d3c93, 0x60d4bceb65a6176e, 0xcabc52037c654624,
      0x0000000000000000, 0x1f1e1d1c1b1a1918,
      Four(0xb58aec6212472ae7, 0x312a6a2f3527c503, 0x617cea7f78b219c5, 0x9739dce4bccd4479));
    MixedAt(FIRST_WORDS, 8, 3, 0, 8, 0xf8bdb71145d34770, 0x858df555e3f9f8de, 0x2515e5e0cc358aec, 0x2d48a30d10b8ccf9,
      0x0706050403020100, 0x0000000000000000,
      Four(0x3cb73e4f2d560ee5, 0x92ebf17a5183de6d, 0x7e107459284722a1, 0x1c8300c0b3f8854f));
    MixedAt(FIRST_WORDS, 8, 4, 12, 2, 0x1bbb7c853ebc70e7, 0x75614b63733080e8, 0x617cea7f78b219c5, 0x1c8300c0b3f8854f,
      0x0000000000000000, 0x1716151413121110,
      Four(0x0992e213b5136654, 0xc8dadf20d9e2f418, 0x050d6a869ce51979, 0xa17c0b869693388c));
    MixedAt(FIRST_WORDS, 8, 5, 13, 7, 0x3b48928b2b5dd0d7, 0x312a6a2f3527c503, 0x7e107459284722a1, 0x254084df8fe6326e,
      0x0000000000000000, 0x3f3e3d3c3b3a3938,
      Four(0x0a0f3f52fa35f156, 0x51ec084ca82cd893, 0xf6a8017a0a604e0d, 0x8933e56c98e6b307));
    MixedAt(FIRST_WORDS, 8, 6, 1, 4, 0xb58aec6212472ae7, 0x92ebf17a5183de6d, 0x57515a93326bbb92, 0xf44228e0b55a93f5,
      0x0f0e0d0c0b0a0908, 0x2726252423222120,
      Four(0x304f07ac9d247a03, 0xb69e60baae35f5f6, 0xeaecc7fd5c37bc7c, 0xb80bebc086053ee2));
    MixedAt(FIRST_WORDS, 8, 7, 10, 5, 0x3cb73e4f2d560ee5, 0x4c7375c7197e9ba8, 0x3eeee8c609d4def1, 0x9739dce4bccd4479,
      0x0000000000000000, 0x2f2e2d2c2b2a2928,
      Four(0x4f352cb7eda150f3, 0xcfad8f27231c8d57, 0x710a8ce6ea2c3b95, 0x3801b52cc243f3b2));
    RoundOf(FIRST_WORDS, F8, FM9, F9, 8);
  }

  lemma First10()
    ensures HalfRound(Columns(F9), FIRST_WORDS, 9, 8) == Columns(F10)
  {
    hide HalfRound, Columns, Mixes, HasWord, Entry, FIRST_WORDS, SECOND_WORDS;
    FirstWords();
    Row9();
    MixedAt(FIRST_WORDS, 9, 0, 10, 2, 0x0992e213b5136654, 0xcfad8f27231c8d57, 0xeaecc7fd5c37bc7c, 0x8933e56c98e6b307,
      0x0000000000000000, 0x1716151413121110,
      Four(0xa8340c3306c9934a, 0x0a1ee885c59a5207, 0x32d2f1a6f94aa78c, 0x071ce8fd4c9f56ba));
    MixedAt(FIRST_WORDS, 9, 1, 8, 4, 0x0a0f3f52fa35f156, 0xc8dadf20d9e2f418, 0x710a8ce6ea2c3b95, 0xb80bebc086053ee2,
      0x0000000000000000, 0x2726252423222120,
      Four(0xe6d593a3e9f25a1a, 0x3c2e9a60df15cfaf, 0x72d21d3b9d3db45b, 0xafa9b4c8482f8313));
    MixedAt(FIRST_WORDS, 9, 2, 7, 6, 0x304f07ac9d247a03, 0x51ec084ca82cd893, 0x050d6a869ce51979, 0x3801b52cc243f3b2,
      0x3f3e3d3c3b3a3938, 0x3736353433323130,
      Four(0x6b78837feda90c3c, 0x92641b455114d2ba, 0x3bfb0cb491612663, 0xf42529b0fb0314d1));
    MixedAt(FIRST_WORDS, 9, 3, 1, 5, 0x4f352cb7eda150f3, 0xb69e60baae35f5f6, 0xf6a8017a0a604e0d, 0xa17c0b869693388c,
      0x0f0e0d0c0b0a0908, 0x2f2e2d2c2b2a2928,
      Four(0x0c25bb3c5623c62a, 0x6df28dbc104f1da5, 0x7eecb54f8c3fc3c3, 0x57d23c57cc41e3be));
    MixedAt(FIRST_WORDS, 9, 4, 15, 11, 0xa8340c3306c9934a, 0x3c2e9a60df15cfaf, 0x3bfb0cb491612663, 0x57d23c57cc41e3be,
      0x0000000000000000, 0x0000000000000000,
      Four(0xe8712eed9cf6ff93, 0x9dff8f648758d9ef, 0xcaf14febf4bbf06d, 0x6557c1efafaa2f46));
    MixedAt(FIRST_WORDS, 9, 5, 9, 14, 0xe6d593a3e9f25a1a, 0x92641b455114d2ba, 0x7eecb54f8c3fc3c3, 0x071ce8fd4c9f56ba,
      0x0000000000000000, 0x0000000000000000,
      Four(0xeb151c4e1c3c282f, 0x2a37425f23632156, 0x64c0cc4b70856bf0, 0x6e3b9c8d66206219));
    MixedAt(FIRST_WORDS, 9, 6, 3, 12, 0x6b78837feda90c3c, 0x6df28dbc104f1da5, 0x32d2f1a6f94aa78c, 0xafa9b4c8482f8313,
      0x1f1e1d1c1b1a1918, 0x0000000000000000,
      Four(0x1ce8e841fb507039, 0x95cb711f30518798, 0x6eba01667a16ee8c, 0xeaa94dd529abac70));
    MixedAt(FIRST_WORDS, 9, 7, 13, 0, 0x0c25bb3c5623c62a, 0x0a1ee885c59a5207, 0x72d21d3b9d3db45b, 0xf42529b0fb0314d1,
      0x0000000000000000, 0x0706050403020100,
      Four(0x22b7731fb082b2eb, 0x12884cfedcb81015, 0x8c28ec26ff9e91b0, 0x3899c20a7fff52e3));
    RoundOf(FIRST_WORDS, F9, FM10, F10, 9);
  }

  lemma First11()
    ensures HalfRound(Columns(F10), FIRST_WORDS, 0, 8) == Columns(F11)
  {
    hide HalfRound, Columns, Mixes, HasWord, Entry, FIRST_WORDS, SECOND_WORDS;
    FirstWords();
    Row0();
    MixedAt(FIRST_WORDS, 0, 0, 0, 1, 0xe8712eed9cf6ff93, 0x12884cfedcb81015, 0x6eba01667a16ee8c, 0x6e3b9c8d66206219,
      0x0706050403020100, 0x0f0e0d0c0b0a0908,
      Four(0x7428aa984af402e5, 0x89f1fc940279b219, 0xa7e3e2d1c2043039, 0x1e986eb9d8292530));
    MixedAt(FIRST_WORDS, 0, 1, 2, 3, 0xeb151c4e1c3c282f, 0x9dff8f648758d9ef, 0x8c28ec26ff9e91b0, 0xeaa94dd529abac70,
      0x1716151413121110, 0x1f1e1d1c1b1a1918,
      Four(0x3a100a999be60e13, 0xa9e2f82e6b9a23cb, 0xae3650a1ffe9f028, 0x8300a51cb5c7d165));
    MixedAt(FIRST_WORDS, 0, 2, 4, 5, 0x1ce8e841fb507039, 0x2a37425f23632156, 0xcaf14febf4bbf06d, 0x3899c20a7fff52e3,
      0x2726252423222120, 0x2f2e2d2c2b2a2928,
      Four(0x95d3e7149872433f, 0x40a76c24f30c5702, 0xd80cdc3152f44ce9, 0xcef0abf90758cead));
    MixedAt(FIRST_WORDS, 0, 3, 6, 7, 0x22b7731fb082b2eb, 0x95cb711f30518798, 0x64c0cc4b70856bf0, 0x6557c1efafaa2f46,
      0x3736353433323130, 0x3f3e3d3c3b3a3938,
      Four(0x54ba6b64f5a104b6, 0xb2b629c51acb3821, 0xfc9800572b05c3db, 0xdc2aef162f917f4f));
    MixedAt(FIRST_WORDS, 0, 4, 8, 9, 0x7428aa984af402e5, 0xa9e2f82e6b9a23cb, 0xd80cdc3152f44ce9, 0xdc2aef162f917f4f,
      0x0000000000000000, 0x0000000000000000,
      Four(0xadc5159f855c462e, 0xe52633a75f77fa91, 0x7d2a6b0b6175e236, 0x0bfe34da4c60477d));
    MixedAt(FIRST_WORDS, 0, 5, 10, 11, 0x3a100a999be60e13, 0x40a76c24f30c5702, 0xfc9800572b05c3db, 0x1e986eb9d8292530,
      0x0000000000000000, 0x0000000000000000,
      Four(0xb34456d2631ebd91, 0x830d8c10e40f76df, 0xf90a261ba62be313, 0xa596e59f16f70731));
    MixedAt(FIRST_WORDS, 0, 6, 12, 13, 0x95d3e7149872433f, 0xb2b629c51acb3821, 0xa7e3e2d1c2043039, 0x8300a51cb5c7d165,
      0x0000000000000000, 0x0000000000000000,
      Four(0x8e67eff61be28df7, 0x459994d1764f49e3, 0xe7111574d382b666, 0x3832889d45f3d068));
    MixedAt(FIRST_WORDS, 0, 7, 14, 15, 0x54ba6b64f5a104b6, 0x89f1fc940279b219, 0xae3650a1ffe9f028, 0xcef0abf90758cead,
      0x0000000000000000, 0x0000000000000000,
      Four(0x1dba981d815046e1, 0x0eaf37b0f3e7ba4e, 0x3859abfcf0c64d35, 0x8ae0e2f8e07f910c));
    RoundOf(FIRST_WORDS, F10, FM11, F11, 0);
  }

  lemma First12()
    ensures HalfRound(Columns(F11), FIRST_WORDS, 1, 8) == Columns(F12)
  {
    hide HalfRound, Columns, Mixes, HasWord, Entry, FIRST_WORDS, SECOND_WORDS;
    FirstWords();
    Row1();
    MixedAt(FIRST_WORDS, 1, 0, 14, 10, 0xadc5159f855c462e, 0x0eaf37b0f3e7ba4e, 0xe7111574d382b666, 0xa596e59f16f70731,
      0x0000000000000000, 0x0000000000000000,
      Four(0x3f59c8a8e46f719a, 0x65f82de9acc05bb9, 0x30196dacbd4b5cc2, 0xd95550eacfe5fd8d));
    MixedAt(FIRST_WORDS, 1, 1, 4, 8, 0xb34456d2631ebd91, 0xe52633a75f77fa91, 0x3859abfcf0c64d35, 0x3832889d45f3d068,
      0x2726252423222120, 0x0000000000000000,
      Four(0xdf1f53db683f5969, 0x9101208ca3b9c7ea, 0x570e347bd35a63d2, 0x7e697f545af1ef9d));
    MixedAt(FIRST_WORDS, 1, 2, 9, 15, 0x8e67eff61be28df7, 0x830d8c10e40f76df, 0x7d2a6b0b6175e236, 0x8ae0e2f8e07f910c,
      0x0000000000000000, 0x0000000000000000,
      Four(0x166d6726b57ef9ef, 0x0e7dc3b28b168a0c, 0x03c90ac6f007b01f, 0x671109e0f2fc2eeb));
    MixedAt(FIRST_WORDS, 1, 3, 13, 6, 0x1dba981d815046e1, 0x459994d1764f49e3, 0xf90a261ba62be313, 0x0bfe34da4c60477d,
      0x0000000000000000, 0x3736353433323130,
      Four(0x353d0713bb3ac66c, 0x13a050ce9fd3955e, 0x93628c97df80ced7, 0xde588ec2d0aad390));
    MixedAt(FIRST_WORDS, 1, 4, 1, 12, 0x3f59c8a8e46f719a, 0x9101208ca3b9c7ea, 0x03c90ac6f007b01f, 0xde588ec2d0aad390,
      0x0f0e0d0c0b0a0908, 0x0000000000000000,
      Four(0x61583f17f6eeb0de, 0x1ca1ece5f9fe9da5, 0x0fbfbea49f442080, 0xc85d22c1ae0bf7de));
    MixedAt(FIRST_WORDS, 1, 5, 0, 2, 0xdf1f53db683f5969, 0x0e7dc3b28b168a0c, 0x93628c97df80ced7, 0xd95550eacfe5fd8d,
      0x0706050403020100, 0x1716151413121110,
      Four(0x6d4a906972cf180b, 0x802b4a97fcdab01a, 0x2184fb8897087a8b, 0x547054f889915f39));
    MixedAt(FIRST_WORDS, 1, 6, 11, 7, 0x166d6726b57ef9ef, 0x13a050ce9fd3955e, 0x30196dacbd4b5cc2, 0x7e697f545af1ef9d,
      0x0000000000000000, 0x3f3e3d3c3b3a3938,
      Four(0xccfc325dad2b7c13, 0x2fbf59e0f1415a79, 0xf46f91dc643e1eb2, 0xb4b2c35f528df94f));
    MixedAt(FIRST_WORDS, 1, 7, 5, 3, 0x353d0713bb3ac66c, 0x65f82de9acc05bb9, 0x570e347bd35a63d2, 0x671109e0f2fc2eeb,
      0x2f2e2d2c2b2a2928, 0x1f1e1d1c1b1a1918,
      Four(0xf615a222cdf72f91, 0xe3a82664afcdf619, 0xfd4031ef48513020, 0x445897ccc7846085));
    RoundOf(FIRST_WORDS, F11, FM12, F12, 1);
  }

  lemma Second1()
    ensures HalfRound(Columns(S0), SECOND_WORDS, 0, 8) == Columns(S1)
  {
    hide HalfRound, Columns, Mixes, HasWord, Entry, FIRST_WORDS, SECOND_WORDS;
    SecondWords();
    Row0();
    MixedAt(SECOND_WORDS, 0, 0, 0, 1, 0xff3e48ac606d2724, 0xe6d620e38bba2bf1, 0x6a09e667f3bcc908, 0x510e527fade683d1,
      0x0706050403020100, 0x0f0e0d0c0b0a0908,
      Four(0x675680ea09d22c41, 0xad51cd1812c2e93d, 0xbd86e3c606ffbbba, 0x10ad2599572eb5c6));
    MixedAt(SECOND_WORDS, 0, 1, 2, 3, 0x2b6d0f03be548f10, 0x33164736804d08f5, 0xbb67ae8584caa73b, 0x9b05688c2b3e6c1f,
      0x1716151413121110, 0x1f1e1d1c1b1a1918,
      Four(0xc059907150026920, 0x16f44cc457ad9ed1, 0xa0d82e64c8e2699b, 0x6ae2bad4557bbe9e));
    MixedAt(SECOND_WORDS, 0, 2, 4, 5, 0xff2d7f8bccfba4b8, 0xdbf004f0c01f6df4, 0x3c6ef372fe94f82b, 0xe07c265404be4294,
      0x2726252423222120, 0x2f2e2d2c2b2a2928,
      Four(0xfd57c1f7ddc79814, 0x866e8b1727c7e66f, 0x08d2aea09183c817, 0x17e049d4b0af3ff8));
    MixedAt(SECOND_WORDS, 0, 3, 6, 7, 0x72deac9005e263eb, 0xbc02b6384c348cde, 0xa54ff53a5f1d36f1, 0x5be0cd19137e2179,
      0x3736353433323130, 0x3f3e3d3c3b3a3938,
      Four(0xc572ddc044c6de02, 0xc0e6830ffc2d13ad, 0xc06e49007a550b07, 0x84e75345dd407931));
    MixedAt(SECOND_WORDS, 0, 4, 8, 9, 0x675680ea09d22c41, 0x16f44cc457ad9ed1, 0x08d2aea09183c817, 0x84e75345dd407931,
      0x4746454443424140, 0x4f4e4d4c4b4a4948,
      Four(0x6c767fd391751d1f, 0x12d44cc6f9843ca9, 0xdefd39f7ddaad9d1, 0x5ca815f40ab0d003));
    MixedAt(SECOND_WORDS, 0, 5, 10, 11, 0xc059907150026920, 0x866e8b1727c7e66f, 0xc06e49007a550b07, 0x10ad2599572eb5c6,
      0x5756555453525150, 0x5f5e5d5c5b5a5958,
      Four(0xcd02f213f54c0765, 0xc28d19207d8fa2ca, 0xaec0af4af012dc4b, 0x52205130e70a7bff));
    MixedAt(SECOND_WORDS, 0, 6, 12, 13, 0xfd57c1f7ddc79814, 0xc0e6830ffc2d13ad, 0xbd86e3c606ffbbba, 0x6ae2bad4557bbe9e,
      0x6766656463626160, 0x6f6e6d6c6b6a6968,
      Four(0xfdf2f7bdfdd60133, 0xbfc1e50d9eb9eb50, 0x373f2d639a487f02, 0x118b95de4402b290));
    MixedAt(SECOND_WORDS, 0, 7, 14, 15, 0xc572ddc044c6de02, 0xad51cd1812c2e93d, 0xa0d82e64c8e2699b, 0x17e049d4b0af3ff8,
      0x7776757473727170, 0x7f7e7d7c7b7a7978,
      Four(0xe8f3ac7fc16f56fb, 0x4b698dd6163d5666, 0x5a8ec85d71e60fe7, 0x3f6392a0ab283cb4));
    RoundOf(SECOND_WORDS, S0, SM1, S1, 0);
  }

  lemma Second2()
    ensures HalfRound(Columns(S1), SECOND_WORDS, 1, 8) == Columns(S2)
  {
    hide HalfRound, Columns, Mixes, HasWord, Entry, FIRST_WORDS, SECOND_WORDS;
    SecondWords();
    Row1();
    MixedAt(SECOND_WORDS, 1, 0, 14, 10, 0x6c767fd391751d1f, 0x4b698dd6163d5666, 0x373f2d639a487f02, 0x52205130e70a7bff,
      0x7776757473727170, 0x5756555453525150,
      Four(0x08b42eea72b8ee46, 0xdba32ee19bbdb1ff, 0x6fd6c108c99f60fe, 0x3c68f49ab1e00fce));
    MixedAt(SECOND_WORDS, 1, 1, 4, 8, 0xcd02f213f54c0765, 0x12d44cc6f9843ca9, 0x5a8ec85d71e60fe7, 0x118b95de4402b290,
      0x2726252423222120, 0x4746454443424140,
      Four(0x277e4ae6012183de, 0xfe8b66111ab3825f, 0x267f12aa26b51c5f, 0x75ff728e9d581657));
    MixedAt(SECOND_WORDS, 1, 2, 9, 15, 0xfdf2f7bdfdd60133, 0xc28d19207d8fa2ca, 0xdefd39f7ddaad9d1, 0x3f6392a0ab283cb4,
      0x4f4e4d4c4b4a4948, 0x7f7e7d7c7b7a7978,
      Four(0x66516d354a3d3030, 0x3c770c63861fd331, 0x493f17bfcb1d20eb, 0xfcba0bd6bcc47a90));
    MixedAt(SECOND_WORDS, 1, 3, 13, 6, 0xe8f3ac7fc16f56fb, 0xbfc1e50d9eb9eb50, 0xaec0af4af012dc4b, 0x5ca815f40ab0d003,
      0x6f6e6d6c6b6a6968, 0x3736353433323130,
      Four(0x76863cfe2495d38d, 0x1e91d4e0bc45a3b9, 0xa864e2a07bed2776, 0x3880b7a5474e601e));
    MixedAt(SECOND_WORDS, 1, 4, 1, 12, 0x08b42eea72b8ee46, 0xfe8b66111ab3825f, 0x493f17bfcb1d20eb, 0x3880b7a5474e601e,
      0x0f0e0d0c0b0a0908, 0x6766656463626160,
      Four(0xd768da42f8303ef0, 0x14fbd62a8316dcd2, 0x53c939c3bddc0d8a, 0x2b520850c3f1d6fd));
    MixedAt(SECOND_WORDS, 1, 5, 0, 2, 0x277e4ae6012183de, 0x3c770c63861fd331, 0xa864e2a07bed2776, 0x3c68f49ab1e00fce,
      0x0706050403020100, 0x1716151413121110,
      Four(0x2114ee3a1c8b6b73, 0x715e5383e6943062, 0xa7ac55198c7c1a65, 0xc3a41ab7b9fb4a18));
    MixedAt(SECOND_WORDS, 1, 6, 11, 7, 0x66516d354a3d3030, 0x1e91d4e0bc45a3b9, 0x6fd6c108c99f60fe, 0x75ff728e9d581657,
      0x5f5e5d5c5b5a5958, 0x3f3e3d3c3b3a3938,
      Four(0x3f6d202167406660, 0xd82b06eb797d743f, 0xf7f8c007769645f8, 0x8b9cc3e81b37f6fe));
    MixedAt(SECOND_WORDS, 1, 7, 5, 3, 0x76863cfe2495d38d, 0xdba32ee19bbdb1ff, 0x267f12aa26b51c5f, 0xfcba0bd6bcc47a90,
      0x2f2e2d2c2b2a2928, 0x1f1e1d1c1b1a1918,
      Four(0xbf9479cda25ff70b, 0xf6221ab3928943a3, 0xe40fcefc528c8eee, 0x65d6e82dade9dfb2));
    RoundOf(SECOND_WORDS, S1, SM2, S2, 1);
  }

  lemma Second3()
    ensures HalfRound(Columns(S2), SECOND_WORDS, 2, 8) == Columns(S3)
  {
    hide HalfRound, Columns, Mixes, HasWord, Entry, FIRST_WORDS, SECOND_WORDS;
    SecondWords();
    Row2();
    MixedAt(SECOND_WORDS, 2, 0, 11, 8, 0xd768da42f8303ef0, 0xf6221ab3928943a3, 0xf7f8c007769645f8, 0xc3a41ab7b9fb4a18,
      0x5f5e5d5c5b5a5958, 0x4746454443424140,
      Four(0xdefd1638eca16622, 0xd8cb5b625dcbb47d, 0x86a8d310edae92c9, 0x2ec7811587cb03ec));
    MixedAt(SECOND_WORDS, 2, 1, 12, 0, 0x2114ee3a1c8b6b73, 0x14fbd62a8316dcd2, 0xe40fcefc528c8eee, 0x8b9cc3e81b37f6fe,
      0x6766656463626160, 0x0706050403020100,
      Four(0x13230cb5beff288f, 0xa0a9c91e0b3eb993, 0xbef13967bd672123, 0xc2ae0b1053eea814));
    MixedAt(SECOND_WORDS, 2, 2, 5, 2, 0x3f6d202167406660, 0x715e5383e6943062, 0x53c939c3bddc0d8a, 0x65d6e82dade9dfb2,
      0x2f2e2d2c2b2a2928, 0x1716151413121110,
      Four(0x96769a3f4ada7098, 0xfc44724f9975b1cb, 0x6144dd7e7273477b, 0x38644361fa67f0f5));
    MixedAt(SECOND_WORDS, 2, 3, 15, 13, 0xbf9479cda25ff70b, 0xd82b06eb797d743f, 0xa7ac55198c7c1a65, 0x2b520850c3f1d6fd,
      0x7f7e7d7c7b7a7978, 0x6f6e6d6c6b6a6968,
      Four(0x181160c67c4401db, 0xcae84268c4c9c688, 0xf410d4101be550f5, 0xf7be4cb752f9402b));
    MixedAt(SECOND_WORDS, 2, 4, 10, 14, 0xdefd1638eca16622, 0xa0a9c91e0b3eb993, 0x6144dd7e7273477b, 0xf7be4cb752f9402b,
      0x5756555453525150, 0x7776757473727170,
      Four(0xd679aefb786c950d, 0xc04fb509149754bd, 0x6821de5f338c18c6, 0xed11cfb29fd5592f));
    MixedAt(SECOND_WORDS, 2, 5, 3, 6, 0x13230cb5beff288f, 0xfc44724f9975b1cb, 0xf410d4101be550f5, 0x2ec7811587cb03ec,
      0x1f1e1d1c1b1a1918, 0x3736353433323130,
      Four(0xb89bb369b9780627, 0xa36be730e5538dcc, 0x036a118c601f2763, 0x1b134cde43f7b93a));
    MixedAt(SECOND_WORDS, 2, 6, 7, 1, 0x96769a3f4ada7098, 0xcae84268c4c9c688, 0x86a8d310edae92c9, 0xc2ae0b1053eea814,
      0x3f3e3d3c3b3a3938, 0x0f0e0d0c0b0a0908,
      Four(0xd80e5c4587d1aeeb, 0xe734b39dc4057c28, 0x5bf96c9bd3eb8b9f, 0xbc1fc13e8409e5e2));
    MixedAt(SECOND_WORDS, 2, 7, 9, 4, 0x181160c67c4401db, 0xd8cb5b625dcbb47d, 0xbef13967bd672123, 0x38644361fa67f0f5,
      0x4f4e4d4c4b4a4948, 0x2726252423222120,
      Four(0xe53078e02c900028, 0x2b69911a92f03efd, 0xe86b82cbad6bc016, 0x4a3c3a0e77b554df));
    RoundOf(SECOND_WORDS, S2, SM3, S3, 2);
  }

  lemma Second4()
    ensures HalfRound(Columns(S3), SECOND_WORDS, 3, 8) == Columns(S4)
  {
    hide HalfRound, Columns, Mixes, HasWord, Entry, FIRST_WORDS, SECOND_WORDS;
    SecondWords();
    Row3();
    MixedAt(SECOND_WORDS, 3, 0, 7, 9, 0xd679aefb786c950d, 0x2b69911a92f03efd, 0x5bf96c9bd3eb8b9f, 0x1b134cde43f7b93a,
      0x3f3e3d3c3b3a3938, 0x4f4e4d4c4b4a4948,
      Four(0x7df3a0e8c5916546, 0xb74e9fdae23ca4e4, 0xb62499a742ae5cce, 0x54ca789314909fa3));
    MixedAt(SECOND_WORDS, 3, 1, 3, 1, 0xb89bb369b9780627, 0xc04fb509149754bd, 0xe86b82cbad6bc016, 0xbc1fc13e8409e5e2,
      0x1f1e1d1c1b1a1918, 0x0f0e0d0c0b0a0908,
      Four(0xbc680e30b7e15dc9, 0xf4ab234f543af0f0, 0x6f05ea3269b098bd, 0x1979d148982e93f7));
    MixedAt(SECOND_WORDS, 3, 2, 13, 12, 0xd80e5c4587d1aeeb, 0xa36be730e5538dcc, 0x6821de5f338c18c6, 0x4a3c3a0e77b554df,
      0x6f6e6d6c6b6a6968, 0x6766656463626160,
      Four(0x857d94fb732836b0, 0xc12d0ba61b54b13f, 0xd3b8fb673a9c77ae, 0xbc5c2a47663bd3fc));
    MixedAt(SECOND_WORDS, 3, 3, 11, 14, 0xe53078e02c900028, 0xe734b39dc4057c28, 0x036a118c601f2763, 0xed11cfb29fd5592f,
      0x5f5e5d5c5b5a5958, 0x7776757473727170,
      Four(0x974be27f4f8fd0fa, 0x344e056a0b88fd95, 0x6e36e18595e9f728, 0x969243716ef8895d));
    MixedAt(SECOND_WORDS, 3, 4, 2, 6, 0x7df3a0e8c5916546, 0xf4ab234f543af0f0, 0xd3b8fb673a9c77ae, 0x969243716ef8895d,
      0x1716151413121110, 0x3736353433323130,
      Four(0xbacc2a61d4db6583, 0xd8fff318d5ee21cb, 0x159ee26d1e3ddde8, 0xffbef8eac47acbfd));
    MixedAt(SECOND_WORDS, 3, 5, 5, 10, 0xbc680e30b7e15dc9, 0xc12d0ba61b54b13f, 0x6e36e18595e9f728, 0x54ca789314909fa3,
      0x2f2e2d2c2b2a2928, 0x5756555453525150,
      Four(0xaba122ef5c354916, 0xd05299e633dacac6, 0xcfaeca6b136fdaf5, 0x76874151857ca43c));
    MixedAt(SECOND_WORDS, 3, 6, 4, 0, 0x857d94fb732836b0, 0x344e056a0b88fd95, 0xb62499a742ae5cce, 0x1979d148982e93f7,
      0x2726252423222120, 0x0706050403020100,
      Four(0xa62ddf52113aa69c, 0x0d6c359c7325c8ec, 0xb880000a55f7b441, 0xc85d9fd019c0e8b2));
    MixedAt(SECOND_WORDS, 3, 7, 15, 8, 0x974be27f4f8fd0fa, 0xb74e9fdae23ca4e4, 0x6f05ea3269b098bd, 0xbc5c2a47663bd3fc,
      0x7f7e7d7c7b7a7978, 0x4746454443424140,
      Four(0xdf29efa8be4236cf, 0xa8572378c68278db, 0x1de13b31aef83a54, 0xe35e1454d302cc06));
    RoundOf(SECOND_WORDS, S3, SM4, S4, 3);
  }

  lemma Second5()
    ensures HalfRound(Columns(S4), SECOND_WORDS, 4, 8) == Columns(S5)
  {
    hide HalfRound, Columns, Mixes, HasWord, Entry, FIRST_WORDS, SECOND_WORDS;
    SecondWords();
    Row4();
    MixedAt(SECOND_WORDS, 4, 0, 9, 0, 0xbacc2a61d4db6583, 0xa8572378c68278db, 0xb880000a55f7b441, 0x76874151857ca43c,
      0x4f4e4d4c4b4a4948, 0x0706050403020100,
      Four(0x266e03deed4b0682, 0x2b7f55d73124cb53, 0xf949c95f9b32b875, 0xdcf545ba804429bd));
    MixedAt(SECOND_WORDS, 4, 1, 5, 7, 0xaba122ef5c354916, 0xd8fff318d5ee21cb, 0x1de13b31aef83a54, 0xc85d9fd019c0e8b2,
      0x2f2e2d2c2b2a2928, 0x3f3e3d3c3b3a3938,
      Four(0x5844742b29ccc340, 0xce484e1944bf38d3, 0x8212d4b6331b6996, 0x1fa41cc90890525e));
    MixedAt(SECOND_WORDS, 4, 2, 2, 4, 0xa62ddf52113aa69c, 0xd05299e633dacac6, 0x159ee26d1e3ddde8, 0xe35e1454d302cc06,
      0x1716151413121110, 0x2726252423222120,
      Four(0x916f79e111f2ab50, 0x1d7d1ab6a465e108, 0xd20c4b2bc49bf73a, 0x31481a4a37957f3a));
    MixedAt(SECOND_WORDS, 4, 3, 10, 15, 0xdf29efa8be4236cf, 0x0d6c359c7325c8ec, 0xcfaeca6b136fdaf5, 0xffbef8eac47acbfd,
      0x5756555453525150, 0x7f7e7d7c7b7a7978,
      Four(0xab007c330385c83f, 0x7a53aa7f6bb1c107, 0x5abc5122b6881d3f, 0x4a4cebc0e6c5bfd7));
    MixedAt(SECOND_WORDS, 4, 4, 14, 1, 0x266e03deed4b0682, 0xce484e1944bf38d3, 0xd20c4b2bc49bf73a, 0x4a4cebc0e6c5bfd7,
      0x7776757473727170, 0x0f0e0d0c0b0a0908,
      Four(0xbe560a543d9ade7b, 0x970cdbeefaac369c, 0x089d582cf0423fe0, 0xf2d7fdef05461bfa));
    MixedAt(SECOND_WORDS, 4, 5, 11, 12, 0x5844742b29ccc340, 0x1d7d1ab6a465e108, 0x5abc5122b6881d3f, 0xdcf545ba804429bd,
      0x5f5e5d5c5b5a5958, 0x6766656463626160,
      Four(0x53ae1cbc852ee864, 0xa283a97ee257b5c6, 0x46661fa689145387, 0x41e0fa66c8a18cc4));
    MixedAt(SECOND_WORDS, 4, 6, 6, 8, 0x916f79e111f2ab50, 0x7a53aa7f6bb1c107, 0xf949c95f9b32b875, 0x1fa41cc90890525e,
      0x3736353433323130, 0x4746454443424140,
      Four(0xc87c74a4b74c265a, 0x5549b970ee7d40e0, 0x14980973b40de7e3, 0x6307703abb7dea11));
    MixedAt(SECOND_WORDS, 4, 7, 3, 13, 0xab007c330385c83f, 0x2b7f55d73124cb53, 0x8212d4b6331b6996, 0x31481a4a37957f3a,
      0x1f1e1d1c1b1a1918, 0x6f6e6d6c6b6a6968,
      Four(0x3aa0ae63d72ca7d8, 0x311975d2dc33c67b, 0x4d18eb3875e472fb, 0x52b442f17df313f9));
    RoundOf(SECOND_WORDS, S4, SM5, S5, 4);
  }

  lemma Second6()
    ensures HalfRound(Columns(S5), SECOND_WORDS, 5, 8) == Columns(S6)
  {
    hide HalfRound, Columns, Mixes, HasWord, Entry, FIRST_WORDS, SECOND_WORDS;
    SecondWords();
    Row5();
    MixedAt(SECOND_WORDS, 5, 0, 2, 12, 0xbe560a543d9ade7b, 0x311975d2dc33c67b, 0x14980973b40de7e3, 0x41e0fa66c8a18cc4,
      0x1716151413121110, 0x6766656463626160,
      Four(0xae7d36695074fe8d, 0x94716b77905f12ed, 0x8aa98e72081e6e51, 0x91d04a3c0cab1711));
    MixedAt(SECOND_WORDS, 5, 1, 6, 10, 0x53ae1cbc852ee864, 0x970cdbeefaac369c, 0x4d18eb3875e472fb, 0x6307703abb7dea11,
      0x3736353433323130, 0x5756555453525150,
      Four(0xf02dfff68bde58c2, 0x58afc2e8f7985a94, 0x5ab19db6feb29a08, 0x0527f85d45d7c928));
    MixedAt(SECOND_WORDS, 5, 2, 0, 11, 0xc87c74a4b74c265a, 0xa283a97ee257b5c6, 0x089d582cf0423fe0, 0x52b442f17df313f9,
      0x0706050403020100, 0x5f5e5d5c5b5a5958,
      Four(0x7478f0cf6f8eaf6a, 0x374998fe71091000, 0xb8b0bc344f0af0f2, 0xcebc952e3e164f3c));
    MixedAt(SECOND_WORDS, 5, 3, 8, 3, 0x3aa0ae63d72ca7d8, 0x5549b970ee7d40e0, 0x46661fa689145387, 0xf2d7fdef05461bfa,
      0x4746454443424140, 0x1f1e1d1c1b1a1918,
      Four(0x7d3367367def1b50, 0x32a4be86bb8e498a, 0x9fb6c242042ffc85, 0x4ba6709955345808));
    MixedAt(SECOND_WORDS, 5, 4, 4, 13, 0xae7d36695074fe8d, 0x58afc2e8f7985a94, 0xb8b0bc344f0af0f2, 0x4ba6709955345808,
      0x2726252423222120, 0x6f6e6d6c6b6a6968,
      Four(0x35c701913ab678eb, 0x29953fef798854cd, 0x0ccfea59d8d8bf24, 0x16040bdc23d85f43));
    MixedAt(SECOND_WORDS, 5, 5, 7, 5, 0xf02dfff68bde58c2, 0x374998fe71091000, 0x9fb6c242042ffc85, 0x91d04a3c0cab1711,
      0x3f3e3d3c3b3a3938, 0x2f2e2d2c2b2a2928,
      Four(0x326c96406c2d9eac, 0x94d425ee2941c0a0, 0xd6e280141c4133da, 0x02a106e620ab9b48));
    MixedAt(SECOND_WORDS, 5, 6, 15, 14, 0x7478f0cf6f8eaf6a, 0x32a4be86bb8e498a, 0x8aa98e72081e6e51, 0x0527f85d45d7c928,
      0x7f7e7d7c7b7a7978, 0x7776757473727170,
      Four(0xf21e0ca66901146c, 0xf58c62975a977a14, 0x2ecd5b14e3bc8d9a, 0xc0e3115eb7e24aba));
    MixedAt(SECOND_WORDS, 5, 7, 1, 9, 0x7d3367367def1b50, 0x94716b77905f12ed, 0x5ab19db6feb29a08, 0xcebc952e3e164f3c,
      0x0f0e0d0c0b0a0908, 0x4f4e4d4c4b4a4948,
      Four(0x0ff79e1cd61fc809, 0x36d69ff944b6b7a3, 0x049d3eead3261cad, 0x829d28b9e6653811));
    RoundOf(SECOND_WORDS, S5, SM6, S6, 5);
  }

  lemma Second7()
    ensures HalfRound(Columns(S6), SECOND_WORDS, 6, 8) == Columns(S7)
  {
    hide HalfRound, Columns, Mixes, HasWord, Entry, FIRST_WORDS, SECOND_WORDS;
    SecondWords();
    Row6();
    MixedAt(SECOND_WORDS, 6, 0, 12, 5, 0x35c701913ab678eb, 0x36d69ff944b6b7a3, 0x2ecd5b14e3bc8d9a, 0x02a106e620ab9b48,
      0x6766656463626160, 0x2f2e2d2c2b2a2928,
      Four(0xda6c35e2f5f3fe14, 0x70eef8083cbfe40c, 0xef4d7dc3f9a5b0f8, 0xfe1c18083f442356));
    MixedAt(SECOND_WORDS, 6, 1, 1, 15, 0x326c96406c2d9eac, 0x29953fef798854cd, 0x049d3eead3261cad, 0xc0e3115eb7e24aba,
      0x0f0e0d0c0b0a0908, 0x7f7e7d7c7b7a7978,
      Four(0x85ea401adc053eff, 0x079cd17835fc9ffb, 0x1895b7de753486fb, 0xcc9ac2b7f62177e9));
    MixedAt(SECOND_WORDS, 6, 2, 14, 13, 0xf21e0ca66901146c, 0x94d425ee2941c0a0, 0x0ccfea59d8d8bf24, 0x829d28b9e6653811,
      0x7776757473727170, 0x6f6e6d6c6b6a6968,
      Four(0xfdd689d9e56cd960, 0x8b1fe554739fe023, 0x4a7086ce4d82d96d, 0x59d01e06f7b49999));
    MixedAt(SECOND_WORDS, 6, 3, 4, 10, 0x0ff79e1cd61fc809, 0xf58c62975a977a14, 0xd6e280141c4133da, 0x16040bdc23d85f43,
      0x2726252423222120, 0x5756555453525150,
      Four(0xfc1c45e01709b999, 0x4d3504397ea71513, 0xde8148afd08d8f85, 0x979d8c1d799e2da7));
    MixedAt(SECOND_WORDS, 6, 4, 0, 7, 0xda6c35e2f5f3fe14, 0x079cd17835fc9ffb, 0x4a7086ce4d82d96d, 0x979d8c1d799e2da7,
      0x0706050403020100, 0x3f3e3d3c3b3a3938,
      Four(0x12139e41ac14e740, 0xc23254a7722e4599, 0x08df7ef5f8ff2c35, 0x6702457f2ce9d286));
    MixedAt(SECOND_WORDS, 6, 5, 6, 3, 0x85ea401adc053eff, 0x8b1fe554739fe023, 0xde8148afd08d8f85, 0xfe1c18083f442356,
      0x3736353433323130, 0x1f1e1d1c1b1a1918,
      Four(0xdd908ad6a9504a5f, 0xa676115f17ca2393, 0xa5091bb880bbf13c, 0x08f46003f9d21f0c));
    MixedAt(SECOND_WORDS, 6, 6, 9, 2, 0xfdd689d9e56cd960, 0x4d3504397ea71513, 0xef4d7dc3f9a5b0f8, 0xcc9ac2b7f62177e9,
      0x4f4e4d4c4b4a4948, 0x1716151413121110,
      Four(0x814fe379bc2a77f9, 0xf202ca86145d35ce, 0xb6de9646f394b5c9, 0x6e11d830a32beae9));
    MixedAt(SECOND_WORDS, 6, 7, 8, 11, 0xfc1c45e01709b999, 0x70eef8083cbfe40c, 0x1895b7de753486fb, 0x59d01e06f7b49999,
      0x4746454443424140, 0x5f5e5d5c5b5a5958,
      Four(0x1d700992ac6d8b9b, 0x338ca84617466a9f, 0x90067d2ab1a46611, 0x16b17dcf4eee41ec));
    RoundOf(SECOND_WORDS, S6, SM7, S7, 6);
  }

  lemma Second8()
    ensures HalfRound(Columns(S7), SECOND_WORDS, 7, 8) == Columns(S8)
  {
    hide HalfRound, Columns, Mixes, HasWord, Entry, FIRST_WORDS, SECOND_WORDS;
    SecondWords();
    Row7();
    MixedAt(SECOND_WORDS, 7, 0, 13, 11, 0x12139e41ac14e740, 0x338ca84617466a9f, 0xb6de9646f394b5c9, 0x08f46003f9d21f0c,
      0x6f6e6d6c6b6a6968, 0x5f5e5d5c5b5a5958,
      Four(0xde50710f04b2e945, 0x029638c9f88d2f5c, 0xc8a843da86d44308, 0x3ab20947d544b948));
    MixedAt(SECOND_WORDS, 7, 1, 7, 14, 0xdd908ad6a9504a5f, 0xc23254a7722e4599, 0x90067d2ab1a46611, 0x6e11d830a32beae9,
      0x3f3e3d3c3b3a3938, 0x7776757473727170,
      Four(0xf1e694767620ddb0, 0x0b794e7b6322a5b6, 0x9ed3a57a1a64f1cb, 0x193a0475b7afc730));
    MixedAt(SECOND_WORDS, 7, 2, 12, 1, 0x814fe379bc2a77f9, 0xa676115f17ca2393, 0x08df7ef5f8ff2c35, 0x16b17dcf4eee41ec,
      0x6766656463626160, 0x0f0e0d0c0b0a0908,
      Four(0xf4b21b6e308baf79, 0xbaa8fa4bae40a970, 0x0b23c901390afd3d, 0x888b8d0aa66ea916));
    MixedAt(SECOND_WORDS, 7, 3, 3, 9, 0x1d700992ac6d8b9b, 0xf202ca86145d35ce, 0xa5091bb880bbf13c, 0x6702457f2ce9d286,
      0x1f1e1d1c1b1a1918, 0x4f4e4d4c4b4a4948,
      Four(0x916f87ef3c185da7, 0x2b2586989dbc459f, 0x86028a225a371b11, 0xe9ec66628fe8758a));
    MixedAt(SECOND_WORDS, 7, 4, 5, 0, 0xde50710f04b2e945, 0x0b794e7b6322a5b6, 0x0b23c901390afd3d, 0xe9ec66628fe8758a,
      0x2f2e2d2c2b2a2928, 0x0706050403020100,
      Four(0x242b98ddd8da896c, 0x5fbcd1887a84c336, 0x2bf3cfe77f9ab1d2, 0x03b8393c557429c1));
    MixedAt(SECOND_WORDS, 7, 5, 15, 4, 0xf1e694767620ddb0, 0xbaa8fa4bae40a970, 0x86028a225a371b11, 0x3ab20947d544b948,
      0x7f7e7d7c7b7a7978, 0x2726252423222120,
      Four(0x06be2bccf6b7db96, 0x3806d4e661537296, 0xaf8a901903100095, 0xdeef4c26921ce00b));
    MixedAt(SECOND_WORDS, 7, 6, 8, 6, 0xf4b21b6e308baf79, 0x2b2586989dbc459f, 0xc8a843da86d44308, 0x193a0475b7afc730,
      0x4746454443424140, 0x3736353433323130,
      Four(0xdeb7f5c530704321, 0x9d1ce921c4355e08, 0x0eedadd509a9749d, 0xa01f789204ad4e57));
    MixedAt(SECOND_WORDS, 7, 7, 2, 10, 0x916f87ef3c185da7, 0x029638c9f88d2f5c, 0x9ed3a57a1a64f1cb, 0x888b8d0aa66ea916,
      0x1716151413121110, 0x5756555453525150,
      Four(0x7ad7f9a3d5eea628, 0x0ff372186cf1efaa, 0x7f9c778e0c9c4110, 0xfeef9b0ecea6f67e));
    RoundOf(SECOND_WORDS, S7, SM8, S8, 7);
  }

  lemma Second9()
    ensures HalfRound(Columns(S8), SECOND_WORDS, 8, 8) == Columns(S9)
  {
    hide HalfRound, Columns, Mixes, HasWord, Entry, FIRST_WORDS, SECOND_WORDS;
    SecondWords();
    Row8();
    MixedAt(SECOND_WORDS, 8, 0, 6, 15, 0x242b98ddd8da896c, 0x0ff372186cf1efaa, 0x0eedadd509a9749d, 0xdeef4c26921ce00b,
      0x3736353433323130, 0x7f7e7d7c7b7a7978,
      Four(0x7d42c19d31035e91, 0xbc05186aef7c7f63, 0x4c6d8fc34b340562, 0x529d97a08bd084b9));
    MixedAt(SECOND_WORDS, 8, 1, 14, 9, 0x06be2bccf6b7db96, 0x5fbcd1887a84c336, 0x7f9c778e0c9c4110, 0xa01f789204ad4e57,
      0x7776757473727170, 0x4f4e4d4c4b4a4948,
      Four(0x3bc81d1651fdcb74, 0x5c8dd987d8060d1c, 0x20ceb1c3ce07777e, 0xc12fdbca437d2c13));
    MixedAt(SECOND_WORDS, 8, 2, 11, 3, 0xdeb7f5c530704321, 0x3806d4e661537296, 0x2bf3cfe77f9ab1d2, 0xfeef9b0ecea6f67e,
      0x5f5e5d5c5b5a5958, 0x1f1e1d1c1b1a1918,
      Four(0x7351929bb255e790, 0xf4a0ae6bbcd441d6, 0xa4461a4274779f82, 0x549950e96bea3aa7));
    MixedAt(SECOND_WORDS, 8, 3, 0, 8, 0x7ad7f9a3d5eea628, 0x9d1ce921c4355e08, 0xaf8a901903100095, 0x03b8393c557429c1,
      0x0706050403020100, 0x4746454443424140,
      Four(0xcdc2aff8a0bc7254, 0x87f880e0c6116cd8, 0x247dc29aa35c9d88, 0xaca105908309bdfe));
    MixedAt(SECOND_WORDS, 8, 4, 12, 2, 0x7d42c19d31035e91, 0x5c8dd987d8060d1c, 0xa4461a4274779f82, 0xaca105908309bdfe,
      0x6766656463626160, 0x1716151413121110,
      Four(0x63f69d6ca4d08fd7, 0x2bbd2008d5fcb8b6, 0x1e7717cb4facede1, 0x8ace8c94ed9f4946));
    MixedAt(SECOND_WORDS, 8, 5, 13, 7, 0x3bc81d1651fdcb74, 0xf4a0ae6bbcd441d6, 0x247dc29aa35c9d88, 0x529d97a08bd084b9,
      0x6f6e6d6c6b6a6968, 0x3f3e3d3c3b3a3938,
      Four(0x5222770d7f917db6, 0x34dcb12c7f6e64fb, 0xe9635874f5adffb1, 0xd2f8a3ce8506b2db));
    MixedAt(SECOND_WORDS, 8, 6, 1, 4, 0x7351929bb255e790, 0x87f880e0c6116cd8, 0x4c6d8fc34b340562, 0xc12fdbca437d2c13,
      0x0f0e0d0c0b0a0908, 0x2726252423222120,
      Four(0xeeeac23829154660, 0xe9e0990c910c49ac, 0xc99c300dca07e306, 0xbd222ee6b35be262));
    MixedAt(SECOND_WORDS, 8, 7, 10, 5, 0xcdc2aff8a0bc7254, 0xbc05186aef7c7f63, 0x20ceb1c3ce07777e, 0x549950e96bea3aa7,
      0x5756555453525150, 0x2f2e2d2c2b2a2928,
      Four(0x030809f943e87a9b, 0x249c13b18db76a4e, 0xe0f5b6cdf3e8bb4b, 0x37c58b697059f66f));
    RoundOf(SECOND_WORDS, S8, SM9, S9, 8);
  }

  lemma Second10()
    ensures HalfRound(Columns(S9), SECOND_WORDS, 9, 8) == Columns(S10)
  {
    hide HalfRound, Columns, Mixes, HasWord, Entry, FIRST_WORDS, SECOND_WORDS;
    SecondWords();
    Row9();
    MixedAt(SECOND_WORDS, 9, 0, 10, 2, 0x63f69d6ca4d08fd7, 0x249c13b18db76a4e, 0xc99c300dca07e306, 0xd2f8a3ce8506b2db,
      0x5756555453525150, 0x1716151413121110,
      Four(0xa5e1a8757e2666df, 0x467c842f9b9de346, 0x8ddccef928f4fbf9, 0xc363a53d51db7337));
    MixedAt(SECOND_WORDS, 9, 1, 8, 4, 0x5222770d7f917db6, 0x2bbd2008d5fcb8b6, 0xe0f5b6cdf3e8bb4b, 0xbd222ee6b35be262,
      0x4746454443424140, 0x2726252423222120,
      Four(0xf862b2a5f85f2d8a, 0xcf5d23455e6175c3, 0xebb82085935c2e5f, 0xdf36d3e9276b8058));
    MixedAt(SECOND_WORDS, 9, 2, 7, 6, 0xeeeac23829154660, 0x34dcb12c7f6e64fb, 0x1e7717cb4facede1, 0x37c58b697059f66f,
      0x3f3e3d3c3b3a3938, 0x3736353433323130,
      Four(0x9d89375b9e8c019e, 0xdffed1649b1e305b, 0xecb23934ca14f3f6, 0x3a570e6d25a7ca4c));
    MixedAt(SECOND_WORDS, 9, 3, 1, 5, 0x030809f943e87a9b, 0xe9e0990c910c49ac, 0xe9635874f5adffb1, 0x8ace8c94ed9f4946,
      0x0f0e0d0c0b0a0908, 0x2f2e2d2c2b2a2928,
      Four(0x159a78302f6e696e, 0x378b3d108eb5d0f7, 0x71b0047a631f9a8c, 0x55eb27fbfc395e56));
    MixedAt(SECOND_WORDS, 9, 4, 15, 11, 0xa5e1a8757e2666df, 0xcf5d23455e6175c3, 0xecb23934ca14f3f6, 0x55eb27fbfc395e56,
      0x7f7e7d7c7b7a7978, 0x5f5e5d5c5b5a5958,
      Four(0x5e32a7f363bf73a7, 0x489c75a95693c33d, 0xae593b8b1b2b25ab, 0x1d6bfa09afbfc2e9));
    MixedAt(SECOND_WORDS, 9, 5, 9, 14, 0xf862b2a5f85f2d8a, 0xdffed1649b1e305b, 0x71b0047a631f9a8c, 0xc363a53d51db7337,
      0x4f4e4d4c4b4a4948, 0x7776757473727170,
      Four(0x9164f3aa84440a79, 0x19c0b7a4bb2b3d47, 0x7edef70d6f9c6f7f, 0x7e121e7827b06088));
    MixedAt(SECOND_WORDS, 9, 6, 3, 12, 0x9d89375b9e8c019e, 0x378b3d108eb5d0f7, 0x8ddccef928f4fbf9, 0xdf36d3e9276b8058,
      0x1f1e1d1c1b1a1918, 0x6766656463626160,
      Four(0xa887a4b731c64bea, 0x94ef5ed94a794f82, 0x069902a6233b591c, 0x098bc7b7cf421ac2));
    MixedAt(SECOND_WORDS, 9, 7, 13, 0, 0x159a78302f6e696e, 0x467c842f9b9de346, 0xebb82085935c2e5f, 0x3a570e6d25a7ca4c,
      0x6f6e6d6c6b6a6968, 0x0706050403020100,
      Four(0x8600b58a2e91b03a, 0xc8a0e823742318ba, 0xd72532a84f097543, 0xd79b95d1c9dadf43));
    RoundOf(SECOND_WORDS, S9, SM10, S10, 9);
  }

  lemma Second11()
    ensures HalfRound(Columns(S10), SECOND_WORDS, 0, 8) == Columns(S11)
  {
    hide HalfRound, Columns, Mixes, HasWord, Entry, FIRST_WORDS, SECOND_WORDS;
    SecondWords();
    Row0();
    MixedAt(SECOND_WORDS, 0, 0, 0, 1, 0x5e32a7f363bf73a7, 0xc8a0e823742318ba, 0x069902a6233b591c, 0x7e121e7827b06088,
      0x0706050403020100, 0x0f0e0d0c0b0a0908,
      Four(0x62e466f23307426c, 0xd200a9169e75d293, 0xccfc90400222454a, 0xc90e9fb08b1b60cc));
    MixedAt(SECOND_WORDS, 0, 1, 2, 3, 0x9164f3aa84440a79, 0x489c75a95693c33d, 0xd72532a84f097543, 0x098bc7b7cf421ac2,
      0x1716151413121110, 0x1f1e1d1c1b1a1918,
      Four(0x4621ca355586fbef, 0x13f8eb0c32a9b078, 0x3c105b3755d7dc2d, 0x423f648a0e31ad1a));
    MixedAt(SECOND_WORDS, 0, 2, 4, 5, 0xa887a4b731c64bea, 0x19c0b7a4bb2b3d47, 0xae593b8b1b2b25ab, 0xd79b95d1c9dadf43,
      0x2726252423222120, 0x2f2e2d2c2b2a2928,
      Four(0x23a16a3e1d450d5a, 0x545421293696c89b, 0xa12eab05794c5dac, 0x190bfa681f2c23b0));
    MixedAt(SECOND_WORDS, 0, 3, 6, 7, 0x8600b58a2e91b03a, 0x94ef5ed94a794f82, 0x7edef70d6f9c6f7f, 0x1d6bfa09afbfc2e9,
      0x3736353433323130, 0x3f3e3d3c3b3a3938,
      Four(0x24d125ea762f3618, 0x29091ee030dd2f17, 0x07e8106696d95c7f, 0x85862753d7ef3962));
    MixedAt(SECOND_WORDS, 0, 4, 8, 9, 0x62e466f23307426c, 0x13f8eb0c32a9b078, 0xa12eab05794c5dac, 0x85862753d7ef3962,
      0x4746454443424140, 0x4f4e4d4c4b4a4948,
      Four(0x692fa9c2a690c4f2, 0x9d201699d64bdae9, 0x952dce7f5976aaf2, 0x74e31633a4849d35));
    MixedAt(SECOND_WORDS, 0, 5, 10, 11, 0x4621ca355586fbef, 0x545421293696c89b, 0x07e8106696d95c7f, 0xc90e9fb08b1b60cc,
      0x5756555453525150, 0x5f5e5d5c5b5a5958,
      Four(0x5c1db817426ec52b, 0xf91f2ff73673c7a8, 0x767c8df39c9db62d, 0x1a290876cd017aac));
    MixedAt(SECOND_WORDS, 0, 6, 12, 13, 0x23a16a3e1d450d5a, 0x29091ee030dd2f17, 0xccfc90400222454a, 0x423f648a0e31ad1a,
      0x6766656463626160, 0x6f6e6d6c6b6a6968,
      Four(0xb05fa194d5cef301, 0x12b52aa662de31f7, 0x05bad0f689b0f333, 0x79090fea915f23e1));
    MixedAt(SECOND_WORDS, 0, 7, 14, 15, 0x24d125ea762f3618, 0xd200a9169e75d293, 0x3c105b3755d7dc2d, 0x190bfa681f2c23b0,
      0x7776757473727170, 0x7f7e7d7c7b7a7978,
      Four(0x5c0f9af34eafe7e6, 0x861eb22db6dc40ca, 0x2d4780179073d436, 0x59fbcb34c35839ec));
    RoundOf(SECOND_WORDS, S10, SM11, S11, 0);
  }

  lemma Second12()
    ensures HalfRound(Columns(S11), SECOND_WORDS, 1, 8) == Columns(S12)
  {
    hide HalfRound, Columns, Mixes, HasWord, Entry, FIRST_WORDS, SECOND_WORDS;
    SecondWords();
    Row1();
    MixedAt(SECOND_WORDS, 1, 0, 14, 10, 0x692fa9c2a690c4f2, 0x861eb22db6dc40ca, 0x05bad0f689b0f333, 0x1a290876cd017aac,
      0x7776757473727170, 0x5756555453525150,
      Four(0x00a7b65eaa9e232c, 0xbeb4e8aa8823f010, 0x1dd6fbf0c27da2b8, 0xfa3e1d79bbded673));
    MixedAt(SECOND_WORDS, 1, 1, 4, 8, 0x5c1db817426ec52b, 0x9d201699d64bdae9, 0x2d4780179073d436, 0x79090fea915f23e1,
      0x2726252423222120, 0x4746454443424140,
      Four(0xfcb4d5646a9377b3, 0xecba4add95c8e2a3, 0x6357b9242190046e, 0x8b8c563737b133f9));
    MixedAt(SECOND_WORDS, 1, 2, 9, 15, 0xb05fa194d5cef301, 0xf91f2ff73673c7a8, 0x952dce7f5976aaf2, 0x59fbcb34c35839ec,
      0x4f4e4d4c4b4a4948, 0x7f7e7d7c7b7a7978,
      Four(0x56931327ef2ee935, 0x713778607f814a75, 0x66dccae323e7cef6, 0x3cd9c246293a4e18));
    MixedAt(SECOND_WORDS, 1, 3, 13, 6, 0x5c0f9af34eafe7e6, 0x12b52aa662de31f7, 0x767c8df39c9db62d, 0x74e31633a4849d35,
      0x6f6e6d6c6b6a6968, 0x3736353433323130,
      Four(0xc953fd769db1769a, 0x62851150cfe5a1cc, 0x82a81d942a7412c3, 0x53af712fe3063761));
    MixedAt(SECOND_WORDS, 1, 4, 1, 12, 0x00a7b65eaa9e232c, 0xecba4add95c8e2a3, 0x66dccae323e7cef6, 0x53af712fe3063761,
      0x0f0e0d0c0b0a0908, 0x6766656463626160,
      Four(0x738372909d21b47d, 0xab843cdbe1478a3b, 0xda6ee08e1eed815b, 0xcb1adbf44b2632fe));
    MixedAt(SECOND_WORDS, 1, 5, 0, 2, 0xfcb4d5646a9377b3, 0x713778607f814a75, 0x82a81d942a7412c3, 0xfa3e1d79bbded673,
      0x0706050403020100, 0x1716151413121110,
      Four(0x4d306985477363fe, 0x892e9e80e2ab47eb, 0x05bf4ee8361f2c33, 0x2c4f1bf87cdec9bf));
    MixedAt(SECOND_WORDS, 1, 6, 11, 7, 0x56931327ef2ee935, 0x62851150cfe5a1cc, 0x1dd6fbf0c27da2b8, 0x8b8c563737b133f9,
      0x5f5e5d5c5b5a5958, 0x3f3e3d3c3b3a3938,
      Four(0xf590153a896bdf2a, 0x9349fb9055a0a965, 0x547fabe11912952b, 0x08c8d84fc29a1a91));
    MixedAt(SECOND_WORDS, 1, 7, 5, 3, 0xc953fd769db1769a, 0xbeb4e8aa8823f010, 0x6357b9242190046e, 0x3cd9c246293a4e18,
      0x2f2e2d2c2b2a2928, 0x1f1e1d1c1b1a1918,
      Four(0x337a99cd15abed0f, 0x8809599b58286f36, 0x1921c5ae058673be, 0x3c044abf58079e45));
    RoundOf(SECOND_WORDS, S11, SM12, S12, 1);
  }

  lemma FirstRounds()
    ensures Rounds(Columns(F0), FIRST_WORDS, 12) == Columns(F12)
  {
    hide Rounds, HalfRound, Columns, FIRST_WORDS;
    var v := Columns(F0);
    NoRound(FIRST_WORDS, v);
    First1();
    OneRound(FIRST_WORDS, v, 0, 0, Columns(F0), Columns(F1));
    First2();
    OneRound(FIRST_WORDS, v, 1, 1, Columns(F1), Columns(F2));
    First3();
    OneRound(FIRST_WORDS, v, 2, 2, Columns(F2), Columns(F3));
    First4();
    OneRound(FIRST_WORDS, v, 3, 3, Columns(F3), Columns(F4));
    First5();
    OneRound(FIRST_WORDS, v, 4, 4, Columns(F4), Columns(F5));
    First6();
    OneRound(FIRST_WORDS, v, 5, 5, Columns(F5), Columns(F6));
    First7();
    OneRound(FIRST_WORDS, v, 6, 6, Columns(F6), Columns(F7));
    First8();
    OneRound(FIRST_WORDS, v, 7, 7, Columns(F7), Columns(F8));
    First9();
    OneRound(FIRST_WORDS, v, 8, 8, Columns(F8), Columns(F9));
    First10();
    OneRound(FIRST_WORDS, v, 9, 9, Columns(F9), Columns(F10));
    First11();
    OneRound(FIRST_WORDS, v, 10, 0, Columns(F10), Columns(F11));
    First12();
    OneRound(FIRST_WORDS, v, 11, 1, Columns(F11), Columns(F12));
  }

  lemma SecondRounds()
    ensures Rounds(Columns(S0), SECOND_WORDS, 12) == Columns(S12)
  {
    hide Rounds, HalfRound, Columns, SECOND_WORDS;
    var v := Columns(S0);
    NoRound(SECOND_WORDS, v);
    Second1();
    OneRound(SECOND_WORDS, v, 0, 0, Columns(S0), Columns(S1));
    Second2();
    OneRound(SECOND_WORDS, v, 1, 1, Columns(S1), Columns(S2));
    Second3();
    OneRound(SECOND_WORDS, v, 2, 2, Columns(S2), Columns(S3));
    Second4();
    OneRound(SECOND_WORDS, v, 3, 3, Columns(S3), Columns(S4));
    Second5();
    OneRound(SECOND_WORDS, v, 4, 4, Columns(S4), Columns(S5));
    Second6();
    OneRound(SECOND_WORDS, v, 5, 5, Columns(S5), Columns(S6));
    Second7();
    OneRound(SECOND_WORDS, v, 6, 6, Columns(S6), Columns(S7));
    Second8();
    OneRound(SECOND_WORDS, v, 7, 7, Columns(S7), Columns(S8));
    Second9();
    OneRound(SECOND_WORDS, v, 8, 8, Columns(S8), Columns(S9));
    Second10();
    OneRound(SECOND_WORDS, v, 9, 9, Columns(S9), Columns(S10));
    Second11();
    OneRound(SECOND_WORDS, v, 10, 0, Columns(S10), Columns(S11));
    Second12();
    OneRound(SECOND_WORDS, v, 11, 1, Columns(S11), Columns(S12));
  }

  // ---------------------------------------------------------------- the blocks

  function Counting(i: nat): Byte
    requires i < 256
  {
    i as Byte
  }

  /** The bytes 0, 1, 2 and so on. */
  function Bytes(n: nat): (s: seq<Byte>)
    requires n <= 256
    ensures |s| == n && forall i :: 0 <= i < n ==> s[i] == Counting(i)
  {
    hide Counting;
    seq(n, i requires 0 <= i < n => Counting(i))
  }

  predicate CountsFrom(p: seq<Byte>, n: nat)
    requires n + 8 <= 256
  {
    |p| == 8 && forall i :: 0 <= i < 8 ==> p[i] == Counting(n + i)
  }

  lemma Load0(p: seq<Byte>)
    requires CountsFrom(p, 0)
    ensures LoadWord(p) == 0x0706050403020100
  {
  }

  lemma Load1(p: seq<Byte>)
    requires CountsFrom(p, 8)
    ensures LoadWord(p) == 0x0f0e0d0c0b0a0908
  {
  }

  lemma Load2(p: seq<Byte>)
    requires CountsFrom(p, 16)
    ensures LoadWord(p) == 0x1716151413121110
  {
  }

  lemma Load3(p: seq<Byte>)
    requires CountsFrom(p, 24)
    ensures LoadWord(p) == 0x1f1e1d1c1b1a1918
  {
  }

  lemma Load4(p: seq<Byte>)
    requires CountsFrom(p, 32)
    ensures LoadWord(p) == 0x2726252423222120
  {
  }

  lemma Load5(p: seq<Byte>)
    requires CountsFrom(p, 40)
    ensures LoadWord(p) == 0x2f2e2d2c2b2a2928
  {
  }

  lemma Load6(p: seq<Byte>)
    requires CountsFrom(p, 48)
    ensures LoadWord(p) == 0x3736353433323130
  {
  }

  lemma Load7(p: seq<Byte>)
    requires CountsFrom(p, 56)
    ensures LoadWord(p) == 0x3f3e3d3c3b3a3938
  {
  }

  lemma Load8(p: seq<Byte>)
    requires CountsFrom(p, 64)
    ensures LoadWord(p) == 0x4746454443424140
  {
  }

  lemma Load9(p: seq<Byte>)
    requires CountsFrom(p, 72)
    ensures LoadWord(p) == 0x4f4e4d4c4b4a4948
  {
  }

  lemma Load10(p: seq<Byte>)
    requires CountsFrom(p, 80)
    ensures LoadWord(p) == 0x5756555453525150
  {
  }

  lemma Load11(p: seq<Byte>)
    requires CountsFrom(p, 88)
    ensures LoadWord(p) == 0x5f5e5d5c5b5a5958
  {
  }

  lemma Load12(p: seq<Byte>)
    requires CountsFrom(p, 96)
    ensures LoadWord(p) == 0x6766656463626160
  {
  }

  lemma Load13(p: seq<Byte>)
    requires CountsFrom(p, 104)
    ensures LoadWord(p) == 0x6f6e6d6c6b6a6968
  {
  }

  lemma Load14(p: seq<Byte>)
    requires CountsFrom(p, 112)
    ensures LoadWord(p) == 0x7776757473727170
  {
  }

  lemma Load15(p: seq<Byte>)
    requires CountsFrom(p, 120)
    ensures LoadWord(p) == 0x7f7e7d7c7b7a7978
  {
  }

  lemma CountedWord(p: seq<Byte>, j: nat)
    requires j < 16 && CountsFrom(p, 8 * j)
    ensures HasWord(SECOND_WORDS, j, LoadWord(p))
  {
    SecondWords();
    hide LoadWord, CountsFrom, HasWord, SECOND_WORDS;
    match j
    case 0 => Load0(p);
    case 1 => Load1(p);
    case 2 => Load2(p);
    case 3 => Load3(p);
    case 4 => Load4(p);
    case 5 => Load5(p);
    case 6 => Load6(p);
    case 7 => Load7(p);
    case 8 => Load8(p);
    case 9 => Load9(p);
    case 10 => Load10(p);
    case 11 => Load11(p);
    case 12 => Load12(p);
    case 13 => Load13(p);
    case 14 => Load14(p);
    case _ => Load15(p);
  }

  lemma CountedKeyWord(p: seq<Byte>, j: nat)
    requires j < 8 && CountsFrom(p, 8 * j)
    ensures HasWord(FIRST_WORDS, j, LoadWord(p))
  {
    FirstWords();
    hide LoadWord, CountsFrom, HasWord, FIRST_WORDS;
    match j
    case 0 => Load0(p);
    case 1 => Load1(p);
    case 2 => Load2(p);
    case 3 => Load3(p);
    case 4 => Load4(p);
    case 5 => Load5(p);
    case 6 => Load6(p);
    case _ => Load7(p);
  }

  lemma ZeroKeyWord(j: nat)
    requires 8 <= j < 16
    ensures HasWord(FIRST_WORDS, j, 0)
  {
  }

  lemma FirstBlockWords(b: Block)
    requires forall k :: 0 <= k < 128 ==> b[k] == if k < 64 then Counting(k) else 0
    ensures BlockWords(b) == FIRST_WORDS
  {
    hide LoadWord, Counting, FIRST_WORDS;
    forall j: nat | j < 16
      ensures BlockWords(b)[j] == FIRST_WORDS[j]
    {
      var p := b[8 * j..8 * j + 8];
      if j < 8 {
        CountedKeyWord(p, j);
      } else {
        ZeroWordIs(p);
        ZeroKeyWord(j);
      }
    }
  }

  lemma SecondBlockWords(b: Block)
    requires forall k :: 0 <= k < 128 ==> b[k] == Counting(k)
    ensures BlockWords(b) == SECOND_WORDS
  {
    hide LoadWord, Counting, SECOND_WORDS;
    forall j: nat | j < 16
      ensures BlockWords(b)[j] == SECOND_WORDS[j]
    {
      CountedWord(b[8 * j..8 * j + 8], j);
    }
  }

  // ---------------------------------------------------------------- the states

  const FIRST_STATE: State8 := [
    0xff3e48ac606d2724, 0x2b6d0f03be548f10, 0xff2d7f8bccfba4b8, 0x72deac9005e263eb,
    0xe6d620e38bba2bf1, 0x33164736804d08f5, 0xdbf004f0c01f6df4, 0xbc02b6384c348cde]

  const STATE: State8 := [
    0xd8c291dde45e0672, 0x7f7ca328fca19f50, 0xd0d38a3f5b7dfac9, 0x441b7bb52656a2d7,
    0x42906280af4c8d78, 0x905aa3a2a390985f, 0x6edad0cf7ab3b45a, 0xe451965c52b21745]

  const DIGEST: seq<Byte> := 
    [0x72, 0x06, 0x5e, 0xe4, 0xdd, 0x91, 0xc2, 0xd8, 0x50, 0x9f, 0xa1, 0xfc, 0x28, 0xa3, 0x7c, 0x7f] +
    [0xc9, 0xfa, 0x7d, 0x5b, 0x3f, 0x8a, 0xd3, 0xd0, 0xd7, 0xa2, 0x56, 0x26, 0xb5, 0x7b, 0x1b, 0x44] +
    [0x78, 0x8d, 0x4c, 0xaf, 0x80, 0x62, 0x90, 0x42, 0x5f, 0x98, 0x90, 0xa3, 0xa2, 0xa3, 0x5a, 0x90] +
    [0x5a, 0xb4, 0xb3, 0x7a, 0xcf, 0xd0, 0xda, 0x6e, 0x45, 0x17, 0xb2, 0x52, 0x5c, 0x96, 0x51, 0xe4]

  const FIRST_END: Vector := [
    0x61583f17f6eeb0de, 0x6d4a906972cf180b, 0xccfc325dad2b7c13, 0xf615a222cdf72f91,
    0xe3a82664afcdf619, 0x1ca1ece5f9fe9da5, 0x802b4a97fcdab01a, 0x2fbf59e0f1415a79,
    0xf46f91dc643e1eb2, 0xfd4031ef48513020, 0x0fbfbea49f442080, 0x2184fb8897087a8b,
    0x547054f889915f39, 0xb4b2c35f528df94f, 0x445897ccc7846085, 0xc85d22c1ae0bf7de]

  const SECOND_END: Vector := [
    0x738372909d21b47d, 0x4d306985477363fe, 0xf590153a896bdf2a, 0x337a99cd15abed0f,
    0x8809599b58286f36, 0xab843cdbe1478a3b, 0x892e9e80e2ab47eb, 0x9349fb9055a0a965,
    0x547fabe11912952b, 0x1921c5ae058673be, 0xda6ee08e1eed815b, 0x05bf4ee8361f2c33,
    0x2c4f1bf87cdec9bf, 0x08c8d84fc29a1a91, 0x3c044abf58079e45, 0xcb1adbf44b2632fe]

  lemma KeyedInitial()
    ensures InitialState(64, 64) == [
    0x6a09e667f2bd8948, 0xbb67ae8584caa73b, 0x3c6ef372fe94f82b, 0xa54ff53a5f1d36f1,
    0x510e527fade682d1, 0x9b05688c2b3e6c1f, 0x1f83d9abfb41bd6b, 0x5be0cd19137e2179]
  {
  }

  lemma FirstStart()
    ensures StartVector(InitialState(64, 64), 128, 0, false) == Columns(F0)
  {
  }

  lemma SecondStart()
    ensures StartVector(FIRST_STATE, 256, 0, true) == Columns(S0)
  {
  }

  lemma Ends()
    ensures Columns(F12) == FIRST_END && Columns(S12) == SECOND_END
  {
  }

  lemma FirstFoldedAt(k: nat)
    requires k < 8
    ensures Fold(InitialState(64, 64), FIRST_END)[k] == FIRST_STATE[k]
  {
    hide InitialState;
    KeyedInitial();
    assert k == 0 || k == 1 || k == 2 || k == 3 || k == 4 || k == 5 || k == 6 || k == 7;
  }

  lemma SecondFoldedAt(k: nat)
    requires k < 8
    ensures Fold(FIRST_STATE, SECOND_END)[k] == STATE[k]
  {
    assert k == 0 || k == 1 || k == 2 || k == 3 || k == 4 || k == 5 || k == 6 || k == 7;
  }

  lemma BothFolded()
    ensures Fold(InitialState(64, 64), Columns(F12)) == FIRST_STATE && Fold(FIRST_STATE, Columns(S12)) == STATE
  {
    Ends();
    hide InitialState, Columns, FIRST_END, SECOND_END, STATE, FIRST_STATE;
    forall k: nat | k < 8
      ensures Fold(InitialState(64, 64), FIRST_END)[k] == FIRST_STATE[k]
      ensures Fold(FIRST_STATE, SECOND_END)[k] == STATE[k]
    {
      FirstFoldedAt(k);
      SecondFoldedAt(k);
    }
  }

  lemma StoredState()
    ensures StoreWord(STATE[0]) == [0x72, 0x06, 0x5e, 0xe4, 0xdd, 0x91, 0xc2, 0xd8] &&
            StoreWord(STATE[1]) == [0x50, 0x9f, 0xa1, 0xfc, 0x28, 0xa3, 0x7c, 0x7f] &&
            StoreWord(STATE[2]) == [0xc9, 0xfa, 0x7d, 0x5b, 0x3f, 0x8a, 0xd3, 0xd0] &&
            StoreWord(STATE[3]) == [0xd7, 0xa2, 0x56, 0x26, 0xb5, 0x7b, 0x1b, 0x44] &&
            StoreWord(STATE[4]) == [0x78, 0x8d, 0x4c, 0xaf, 0x80, 0x62, 0x90, 0x42] &&
            StoreWord(STATE[5]) == [0x5f, 0x98, 0x90, 0xa3, 0xa2, 0xa3, 0x5a, 0x90] &&
            StoreWord(STATE[6]) == [0x5a, 0xb4, 0xb3, 0x7a, 0xcf, 0xd0, 0xda, 0x6e] &&
            StoreWord(STATE[7]) == [0x45, 0x17, 0xb2, 0x52, 0x5c, 0x96, 0x51, 0xe4]
  {
  }

  lemma LowWords(j: nat, i: nat)
    requires j < 4 && i < 8
    ensures StoreWord(STATE[j])[i] == DIGEST[8 * j + i]
  {
    hide StoreWord, STATE;
    StoredState();
    assert j == 0 || j == 1 || j == 2 || j == 3;
    assert i == 0 || i == 1 || i == 2 || i == 3 || i == 4 || i == 5 || i == 6 || i == 7;
  }

  lemma HighWords(j: nat, i: nat)
    requires 4 <= j < 8 && i < 8
    ensures StoreWord(STATE[j])[i] == DIGEST[8 * j + i]
  {
    hide StoreWord, STATE;
    StoredState();
    assert j == 4 || j == 5 || j == 6 || j == 7;
    assert i == 0 || i == 1 || i == 2 || i == 3 || i == 4 || i == 5 || i == 6 || i == 7;
  }

  lemma StoredStateAt(j: nat, i: nat)
    requires j < 8 && i < 8
    ensures StoreWord(STATE[j])[i] == DIGEST[8 * j + i]
  {
    hide StoreWord, STATE, DIGEST;
    if j < 4 {
      LowWords(j, i);
    } else {
      HighWords(j, i);
    }
  }

  lemma DigestByte(k: nat)
    requires k < 64
    ensures WordsToBytes(STATE)[k] == DIGEST[k]
  {
    hide StoreWord, WordsToBytes, STATE;
    ByteAt(STATE, k);
    StoredStateAt(k / 8, k % 8);
  }

  lemma StateIsDigest()
    ensures WordsToBytes(STATE) == DIGEST
  {
    hide WordsToBytes, STATE;
    forall k: nat | k < 64
      ensures WordsToBytes(STATE)[k] == DIGEST[k]
    {
      DigestByte(k);
    }
  }

  // ---------------------------------------------------------------- the digest

  lemma FirstF(b: Block)
    requires forall k :: 0 <= k < 128 ==> b[k] == if k < 64 then Counting(k) else 0
    ensures F(InitialState(64, 64), b, 128, false) == FIRST_STATE
  {
    hide StartVector, InitialState, BlockWords, Rounds, Fold, Columns, Counting, FIRST_STATE, FIRST_WORDS;
    FirstBlockWords(b);
    FirstStart();
    FirstRounds();
    BothFolded();
  }

  lemma SecondF(b: Block)
    requires forall k :: 0 <= k < 128 ==> b[k] == Counting(k)
    ensures F(FIRST_STATE, b, 256, true) == STATE
  {
    hide StartVector, BlockWords, Rounds, Fold, Columns, Counting, FIRST_STATE, STATE, SECOND_WORDS;
    SecondBlockWords(b);
    SecondStart();
    SecondRounds();
    BothFolded();
  }

  lemma TwoBlocks(h: State8, data: seq<Byte>)
    requires |data| == 256
    ensures LastBlock(data) == data[128..]
    ensures FinalState(h, data) == F(F(h, data[..128], 128, false), data[128..], 256, true)
  {
    hide F;
    assert Chain(h, data, 0) == h;
    assert data[128..] + Zeros(0) == data[128..];
  }

  lemma KeyThenMessage(key: seq<Byte>, message: seq<Byte>)
    requires |key| == 64
    ensures KeyedData(key, message) == key + Zeros(64) + message
  {
  }

  lemma StateBytesOf(key: seq<Byte>, message: seq<Byte>, h: State8)
    requires |key| == 64 && FinalState(InitialState(64, 64), KeyedData(key, message)) == h
    ensures Digest(64, key, message) == WordsToBytes(h)
  {
    hide FinalState, InitialState, KeyedData, WordsToBytes;
    assert WordsToBytes(h)[..64] == WordsToBytes(h);
  }

  /** The digest of the bytes 0 to 127 under the key of the bytes 0 to 63 is the published one. */
  lemma KeyedDigest()
    ensures Digest(64, Bytes(64), Bytes(128)) == DIGEST
  {
    hide F, InitialState, FinalState, KeyedData, LastBlock, Counting, WordsToBytes, FIRST_STATE, STATE, DIGEST, Digest;
    var data := KeyedData(Bytes(64), Bytes(128));
    KeyThenMessage(Bytes(64), Bytes(128));
    TwoBlocks(InitialState(64, 64), data);
    FirstF(data[..128]);
    SecondF(data[128..]);
    StateBytesOf(Bytes(64), Bytes(128), STATE);
    StateIsDigest();
  }
}
