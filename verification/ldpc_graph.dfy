/** The two parity tables describe one graph: a check names a bit exactly when the bit lists the check. So a message
    that leaves out one's own leaves out exactly one. */
module LdpcGraph {
  import opened Constants

  /** Bit n, counted from 1, lists check m, counted from 0. */
  predicate Lists(n: nat, m: nat)
    requires 1 <= n <= N
  {
    var b := BitRow(n - 1);
    b.m0 == m + 1 || b.m1 == m + 1 || b.m2 == m + 1
  }

  /** The bits that check m names are in ascending order, and all of them list it. */
  predicate CheckListed(m: nat)
    requires m < M
  {
    var c := CheckRow(m);
    && c.n0 < c.n1 < c.n2 < c.n3 < c.n4 < c.n5 && (c.n6 == 0 || c.n5 < c.n6)
    && Lists(c.n0, m) && Lists(c.n1, m) && Lists(c.n2, m) && Lists(c.n3, m) && Lists(c.n4, m) && Lists(c.n5, m)
    && (c.n6 == 0 || Lists(c.n6, m))
  }

  /** Check m, counted from 1, names bit n, counted from 0. */
  predicate Names(m: nat, n: nat)
    requires 1 <= m <= M
  {
    var c := CheckRow(m - 1);
    c.n0 == n + 1 || c.n1 == n + 1 || c.n2 == n + 1 || c.n3 == n + 1 || c.n4 == n + 1 || c.n5 == n + 1 || c.n6 == n + 1
  }

  /** The three checks that bit n lists are different, and all of them name it. */
  predicate BitNamed(n: nat)
    requires n < N
  {
    var b := BitRow(n);
    b.m0 < b.m1 < b.m2 && Names(b.m0, n) && Names(b.m1, n) && Names(b.m2, n)
  }

  // ----- the rows of the tables -----

  lemma RowListed(m: nat, n0: nat, n1: nat, n2: nat, n3: nat, n4: nat, n5: nat, n6: nat)
    requires m < M && CheckRow(m) == Check(n0, n1, n2, n3, n4, n5, n6)
    requires 1 <= n0 < n1 < n2 < n3 < n4 < n5 <= N && (n6 == 0 || n5 < n6 <= N)
    requires Lists(n0, m) && Lists(n1, m) && Lists(n2, m) && Lists(n3, m) && Lists(n4, m) && Lists(n5, m)
    requires n6 == 0 || Lists(n6, m)
    ensures CheckListed(m)
  {
    hide CheckRow, Lists;
  }

  lemma RowNamed(n: nat, m0: nat, m1: nat, m2: nat)
    requires n < N && BitRow(n) == BitChecks(m0, m1, m2)
    requires 1 <= m0 < m1 < m2 <= M && Names(m0, n) && Names(m1, n) && Names(m2, n)
    ensures BitNamed(n)
  {
    hide BitRow, Names;
  }

  lemma ListedFrom0(m: nat)
    requires 0 <= m < 5
    ensures CheckListed(m)
  {
    hide CheckListed;
    match m
    case 0 => RowListed(0, 4, 31, 59, 91, 92, 96, 153);
    case 1 => RowListed(1, 5, 32, 60, 93, 115, 146, 0);
    case 2 => RowListed(2, 6, 24, 61, 94, 122, 151, 0);
    case 3 => RowListed(3, 7, 33, 62, 95, 96, 143, 0);
    case 4 => RowListed(4, 8, 25, 63, 83, 93, 96, 148);
  }

  lemma ListedFrom5(m: nat)
    requires 5 <= m < 10
    ensures CheckListed(m)
  {
    hide CheckListed;
    match m
    case 5 => RowListed(5, 6, 32, 64, 97, 126, 138, 0);
    case 6 => RowListed(6, 5, 34, 65, 78, 98, 107, 154);
    case 7 => RowListed(7, 9, 35, 66, 99, 139, 146, 0);
    case 8 => RowListed(8, 10, 36, 67, 100, 107, 126, 0);
    case 9 => RowListed(9, 11, 37, 67, 87, 101, 139, 158);
  }

  lemma ListedFrom10(m: nat)
    requires 10 <= m < 15
    ensures CheckListed(m)
  {
    hide CheckListed;
    match m
    case 10 => RowListed(10, 12, 38, 68, 102, 105, 155, 0);
    case 11 => RowListed(11, 13, 39, 69, 103, 149, 162, 0);
    case 12 => RowListed(12, 8, 40, 70, 82, 104, 114, 145);
    case 13 => RowListed(13, 14, 41, 71, 88, 102, 123, 156);
    case 14 => RowListed(14, 15, 42, 59, 106, 123, 159, 0);
  }

  lemma ListedFrom15(m: nat)
    requires 15 <= m < 20
    ensures CheckListed(m)
  {
    hide CheckListed;
    match m
    case 15 => RowListed(15, 1, 33, 72, 106, 107, 157, 0);
    case 16 => RowListed(16, 16, 43, 73, 108, 141, 160, 0);
    case 17 => RowListed(17, 17, 37, 74, 81, 109, 131, 154);
    case 18 => RowListed(18, 11, 44, 75, 110, 121, 166, 0);
    case 19 => RowListed(19, 45, 55, 64, 111, 130, 161, 173);
  }

  lemma ListedFrom20(m: nat)
    requires 20 <= m < 25
    ensures CheckListed(m)
  {
    hide CheckListed;
    match m
    case 20 => RowListed(20, 8, 46, 71, 112, 119, 166, 0);
    case 21 => RowListed(21, 18, 36, 76, 89, 113, 114, 143);
    case 22 => RowListed(22, 19, 38, 77, 104, 116, 163, 0);
    case 23 => RowListed(23, 20, 47, 70, 92, 138, 165, 0);
    case 24 => RowListed(24, 2, 48, 74, 113, 128, 160, 0);
  }

  lemma ListedFrom25(m: nat)
    requires 25 <= m < 30
    ensures CheckListed(m)
  {
    hide CheckListed;
    match m
    case 25 => RowListed(25, 21, 45, 78, 83, 117, 121, 151);
    case 26 => RowListed(26, 22, 47, 58, 118, 127, 164, 0);
    case 27 => RowListed(27, 16, 39, 62, 112, 134, 158, 0);
    case 28 => RowListed(28, 23, 43, 79, 120, 131, 145, 0);
    case 29 => RowListed(29, 19, 35, 59, 73, 110, 125, 161);
  }

  lemma ListedFrom30(m: nat)
    requires 30 <= m < 35
    ensures CheckListed(m)
  {
    hide CheckListed;
    match m
    case 30 => RowListed(30, 20, 36, 63, 94, 136, 161, 0);
    case 31 => RowListed(31, 14, 31, 79, 98, 132, 164, 0);
    case 32 => RowListed(32, 3, 44, 80, 124, 127, 169, 0);
    case 33 => RowListed(33, 19, 46, 81, 117, 135, 167, 0);
    case 34 => RowListed(34, 7, 49, 58, 90, 100, 105, 168);
  }

  lemma ListedFrom35(m: nat)
    requires 35 <= m < 40
    ensures CheckListed(m)
  {
    hide CheckListed;
    match m
    case 35 => RowListed(35, 12, 50, 61, 118, 119, 144, 0);
    case 36 => RowListed(36, 13, 51, 64, 114, 118, 157, 0);
    case 37 => RowListed(37, 24, 52, 76, 129, 148, 149, 0);
    case 38 => RowListed(38, 25, 53, 69, 90, 101, 130, 156);
    case 39 => RowListed(39, 20, 46, 65, 80, 120, 140, 170);
  }

  lemma ListedFrom40(m: nat)
    requires 40 <= m < 45
    ensures CheckListed(m)
  {
    hide CheckListed;
    match m
    case 40 => RowListed(40, 21, 54, 77, 100, 140, 171, 0);
    case 41 => RowListed(41, 35, 82, 133, 142, 171, 174, 0);
    case 42 => RowListed(42, 14, 30, 83, 113, 125, 170, 0);
    case 43 => RowListed(43, 4, 29, 68, 120, 134, 173, 0);
    case 44 => RowListed(44, 1, 4, 52, 57, 86, 136, 152);
  }

  lemma ListedFrom45(m: nat)
    requires 45 <= m < 50
    ensures CheckListed(m)
  {
    hide CheckListed;
    match m
    case 45 => RowListed(45, 26, 51, 56, 91, 122, 137, 168);
    case 46 => RowListed(46, 52, 84, 110, 115, 145, 168, 0);
    case 47 => RowListed(47, 7, 50, 81, 99, 132, 173, 0);
    case 48 => RowListed(48, 23, 55, 67, 95, 172, 174, 0);
    case 49 => RowListed(49, 26, 41, 77, 109, 141, 148, 0);
  }

  lemma ListedFrom50(m: nat)
    requires 50 <= m < 55
    ensures CheckListed(m)
  {
    hide CheckListed;
    match m
    case 50 => RowListed(50, 2, 27, 41, 61, 62, 115, 133);
    case 51 => RowListed(51, 27, 40, 56, 124, 125, 126, 0);
    case 52 => RowListed(52, 18, 49, 55, 124, 141, 167, 0);
    case 53 => RowListed(53, 6, 33, 85, 108, 116, 156, 0);
    case 54 => RowListed(54, 28, 48, 70, 85, 105, 129, 158);
  }

  lemma ListedFrom55(m: nat)
    requires 55 <= m < 60
    ensures CheckListed(m)
  {
    hide CheckListed;
    match m
    case 55 => RowListed(55, 9, 54, 63, 131, 147, 155, 0);
    case 56 => RowListed(56, 22, 53, 68, 109, 121, 174, 0);
    case 57 => RowListed(57, 3, 13, 48, 78, 95, 123, 0);
    case 58 => RowListed(58, 31, 69, 133, 150, 155, 169, 0);
    case 59 => RowListed(59, 12, 43, 66, 89, 97, 135, 159);
  }

  lemma ListedFrom60(m: nat)
    requires 60 <= m < 65
    ensures CheckListed(m)
  {
    hide CheckListed;
    match m
    case 60 => RowListed(60, 5, 39, 75, 102, 136, 167, 0);
    case 61 => RowListed(61, 2, 54, 86, 101, 135, 164, 0);
    case 62 => RowListed(62, 15, 56, 87, 108, 119, 171, 0);
    case 63 => RowListed(63, 10, 44, 82, 91, 111, 144, 149);
    case 64 => RowListed(64, 23, 34, 71, 94, 127, 153, 0);
  }

  lemma ListedFrom65(m: nat)
    requires 65 <= m < 70
    ensures CheckListed(m)
  {
    hide CheckListed;
    match m
    case 65 => RowListed(65, 11, 49, 88, 92, 142, 157, 0);
    case 66 => RowListed(66, 29, 34, 87, 97, 147, 162, 0);
    case 67 => RowListed(67, 30, 50, 60, 86, 137, 142, 162);
    case 68 => RowListed(68, 10, 53, 66, 84, 112, 128, 165);
    case 69 => RowListed(69, 22, 57, 85, 93, 140, 159, 0);
  }

  lemma ListedFrom70(m: nat)
    requires 70 <= m < 75
    ensures CheckListed(m)
  {
    hide CheckListed;
    match m
    case 70 => RowListed(70, 28, 32, 72, 103, 132, 166, 0);
    case 71 => RowListed(71, 28, 29, 84, 88, 117, 143, 150);
    case 72 => RowListed(72, 1, 26, 45, 80, 128, 147, 0);
    case 73 => RowListed(73, 17, 27, 89, 103, 116, 153, 0);
    case 74 => RowListed(74, 51, 57, 98, 163, 165, 172, 0);
  }

  lemma ListedFrom75(m: nat)
    requires 75 <= m < 80
    ensures CheckListed(m)
  {
    hide CheckListed;
    match m
    case 75 => RowListed(75, 21, 37, 73, 138, 152, 169, 0);
    case 76 => RowListed(76, 16, 47, 76, 130, 137, 154, 0);
    case 77 => RowListed(77, 3, 24, 30, 72, 104, 139, 0);
    case 78 => RowListed(78, 9, 40, 90, 106, 134, 151, 0);
    case 79 => RowListed(79, 15, 58, 60, 74, 111, 150, 163);
  }

  lemma ListedFrom80(m: nat)
    requires 80 <= m < 83
    ensures CheckListed(m)
  {
    hide CheckListed;
    match m
    case 80 => RowListed(80, 18, 42, 79, 144, 146, 152, 0);
    case 81 => RowListed(81, 25, 38, 65, 99, 122, 160, 0);
    case 82 => RowListed(82, 17, 42, 75, 129, 170, 172, 0);
  }

  lemma EveryCheckListed(m: nat)
    requires m < M
    ensures CheckListed(m)
  {
    hide CheckListed;
    if m < 5 { ListedFrom0(m); }
    else if m < 10 { ListedFrom5(m); }
    else if m < 15 { ListedFrom10(m); }
    else if m < 20 { ListedFrom15(m); }
    else if m < 25 { ListedFrom20(m); }
    else if m < 30 { ListedFrom25(m); }
    else if m < 35 { ListedFrom30(m); }
    else if m < 40 { ListedFrom35(m); }
    else if m < 45 { ListedFrom40(m); }
    else if m < 50 { ListedFrom45(m); }
    else if m < 55 { ListedFrom50(m); }
    else if m < 60 { ListedFrom55(m); }
    else if m < 65 { ListedFrom60(m); }
    else if m < 70 { ListedFrom65(m); }
    else if m < 75 { ListedFrom70(m); }
    else if m < 80 { ListedFrom75(m); }
    else { ListedFrom80(m); }
  }

  lemma NamedFrom0(n: nat)
    requires 0 <= n < 10
    ensures BitNamed(n)
  {
    hide BitNamed;
    match n
    case 0 => RowNamed(0, 16, 45, 73);
    case 1 => RowNamed(1, 25, 51, 62);
    case 2 => RowNamed(2, 33, 58, 78);
    case 3 => RowNamed(3, 1, 44, 45);
    case 4 => RowNamed(4, 2, 7, 61);
    case 5 => RowNamed(5, 3, 6, 54);
    case 6 => RowNamed(6, 4, 35, 48);
    case 7 => RowNamed(7, 5, 13, 21);
    case 8 => RowNamed(8, 8, 56, 79);
    case 9 => RowNamed(9, 9, 64, 69);
  }

  lemma NamedFrom10(n: nat)
    requires 10 <= n < 20
    ensures BitNamed(n)
  {
    hide BitNamed;
    match n
    case 10 => RowNamed(10, 10, 19, 66);
    case 11 => RowNamed(11, 11, 36, 60);
    case 12 => RowNamed(12, 12, 37, 58);
    case 13 => RowNamed(13, 14, 32, 43);
    case 14 => RowNamed(14, 15, 63, 80);
    case 15 => RowNamed(15, 17, 28, 77);
    case 16 => RowNamed(16, 18, 74, 83);
    case 17 => RowNamed(17, 22, 53, 81);
    case 18 => RowNamed(18, 23, 30, 34);
    case 19 => RowNamed(19, 24, 31, 40);
  }

  lemma NamedFrom20(n: nat)
    requires 20 <= n < 30
    ensures BitNamed(n)
  {
    hide BitNamed;
    match n
    case 20 => RowNamed(20, 26, 41, 76);
    case 21 => RowNamed(21, 27, 57, 70);
    case 22 => RowNamed(22, 29, 49, 65);
    case 23 => RowNamed(23, 3, 38, 78);
    case 24 => RowNamed(24, 5, 39, 82);
    case 25 => RowNamed(25, 46, 50, 73);
    case 26 => RowNamed(26, 51, 52, 74);
    case 27 => RowNamed(27, 55, 71, 72);
    case 28 => RowNamed(28, 44, 67, 72);
    case 29 => RowNamed(29, 43, 68, 78);
  }

  lemma NamedFrom30(n: nat)
    requires 30 <= n < 40
    ensures BitNamed(n)
  {
    hide BitNamed;
    match n
    case 30 => RowNamed(30, 1, 32, 59);
    case 31 => RowNamed(31, 2, 6, 71);
    case 32 => RowNamed(32, 4, 16, 54);
    case 33 => RowNamed(33, 7, 65, 67);
    case 34 => RowNamed(34, 8, 30, 42);
    case 35 => RowNamed(35, 9, 22, 31);
    case 36 => RowNamed(36, 10, 18, 76);
    case 37 => RowNamed(37, 11, 23, 82);
    case 38 => RowNamed(38, 12, 28, 61);
    case 39 => RowNamed(39, 13, 52, 79);
  }

  lemma NamedFrom40(n: nat)
    requires 40 <= n < 50
    ensures BitNamed(n)
  {
    hide BitNamed;
    match n
    case 40 => RowNamed(40, 14, 50, 51);
    case 41 => RowNamed(41, 15, 81, 83);
    case 42 => RowNamed(42, 17, 29, 60);
    case 43 => RowNamed(43, 19, 33, 64);
    case 44 => RowNamed(44, 20, 26, 73);
    case 45 => RowNamed(45, 21, 34, 40);
    case 46 => RowNamed(46, 24, 27, 77);
    case 47 => RowNamed(47, 25, 55, 58);
    case 48 => RowNamed(48, 35, 53, 66);
    case 49 => RowNamed(49, 36, 48, 68);
  }

  lemma NamedFrom50(n: nat)
    requires 50 <= n < 60
    ensures BitNamed(n)
  {
    hide BitNamed;
    match n
    case 50 => RowNamed(50, 37, 46, 75);
    case 51 => RowNamed(51, 38, 45, 47);
    case 52 => RowNamed(52, 39, 57, 69);
    case 53 => RowNamed(53, 41, 56, 62);
    case 54 => RowNamed(54, 20, 49, 53);
    case 55 => RowNamed(55, 46, 52, 63);
    case 56 => RowNamed(56, 45, 70, 75);
    case 57 => RowNamed(57, 27, 35, 80);
    case 58 => RowNamed(58, 1, 15, 30);
    case 59 => RowNamed(59, 2, 68, 80);
  }

  lemma NamedFrom60(n: nat)
    requires 60 <= n < 70
    ensures BitNamed(n)
  {
    hide BitNamed;
    match n
    case 60 => RowNamed(60, 3, 36, 51);
    case 61 => RowNamed(61, 4, 28, 51);
    case 62 => RowNamed(62, 5, 31, 56);
    case 63 => RowNamed(63, 6, 20, 37);
    case 64 => RowNamed(64, 7, 40, 82);
    case 65 => RowNamed(65, 8, 60, 69);
    case 66 => RowNamed(66, 9, 10, 49);
    case 67 => RowNamed(67, 11, 44, 57);
    case 68 => RowNamed(68, 12, 39, 59);
    case 69 => RowNamed(69, 13, 24, 55);
  }

  lemma NamedFrom70(n: nat)
    requires 70 <= n < 80
    ensures BitNamed(n)
  {
    hide BitNamed;
    match n
    case 70 => RowNamed(70, 14, 21, 65);
    case 71 => RowNamed(71, 16, 71, 78);
    case 72 => RowNamed(72, 17, 30, 76);
    case 73 => RowNamed(73, 18, 25, 80);
    case 74 => RowNamed(74, 19, 61, 83);
    case 75 => RowNamed(75, 22, 38, 77);
    case 76 => RowNamed(76, 23, 41, 50);
    case 77 => RowNamed(77, 7, 26, 58);
    case 78 => RowNamed(78, 29, 32, 81);
    case 79 => RowNamed(79, 33, 40, 73);
  }

  lemma NamedFrom80(n: nat)
    requires 80 <= n < 90
    ensures BitNamed(n)
  {
    hide BitNamed;
    match n
    case 80 => RowNamed(80, 18, 34, 48);
    case 81 => RowNamed(81, 13, 42, 64);
    case 82 => RowNamed(82, 5, 26, 43);
    case 83 => RowNamed(83, 47, 69, 72);
    case 84 => RowNamed(84, 54, 55, 70);
    case 85 => RowNamed(85, 45, 62, 68);
    case 86 => RowNamed(86, 10, 63, 67);
    case 87 => RowNamed(87, 14, 66, 72);
    case 88 => RowNamed(88, 22, 60, 74);
    case 89 => RowNamed(89, 35, 39, 79);
  }

  lemma NamedFrom90(n: nat)
    requires 90 <= n < 100
    ensures BitNamed(n)
  {
    hide BitNamed;
    match n
    case 90 => RowNamed(90, 1, 46, 64);
    case 91 => RowNamed(91, 1, 24, 66);
    case 92 => RowNamed(92, 2, 5, 70);
    case 93 => RowNamed(93, 3, 31, 65);
    case 94 => RowNamed(94, 4, 49, 58);
    case 95 => RowNamed(95, 1, 4, 5);
    case 96 => RowNamed(96, 6, 60, 67);
    case 97 => RowNamed(97, 7, 32, 75);
    case 98 => RowNamed(98, 8, 48, 82);
    case 99 => RowNamed(99, 9, 35, 41);
  }

  lemma NamedFrom100(n: nat)
    requires 100 <= n < 110
    ensures BitNamed(n)
  {
    hide BitNamed;
    match n
    case 100 => RowNamed(100, 10, 39, 62);
    case 101 => RowNamed(101, 11, 14, 61);
    case 102 => RowNamed(102, 12, 71, 74);
    case 103 => RowNamed(103, 13, 23, 78);
    case 104 => RowNamed(104, 11, 35, 55);
    case 105 => RowNamed(105, 15, 16, 79);
    case 106 => RowNamed(106, 7, 9, 16);
    case 107 => RowNamed(107, 17, 54, 63);
    case 108 => RowNamed(108, 18, 50, 57);
    case 109 => RowNamed(109, 19, 30, 47);
  }

  lemma NamedFrom110(n: nat)
    requires 110 <= n < 120
    ensures BitNamed(n)
  {
    hide BitNamed;
    match n
    case 110 => RowNamed(110, 20, 64, 80);
    case 111 => RowNamed(111, 21, 28, 69);
    case 112 => RowNamed(112, 22, 25, 43);
    case 113 => RowNamed(113, 13, 22, 37);
    case 114 => RowNamed(114, 2, 47, 51);
    case 115 => RowNamed(115, 23, 54, 74);
    case 116 => RowNamed(116, 26, 34, 72);
    case 117 => RowNamed(117, 27, 36, 37);
    case 118 => RowNamed(118, 21, 36, 63);
    case 119 => RowNamed(119, 29, 40, 44);
  }

  lemma NamedFrom120(n: nat)
    requires 120 <= n < 130
    ensures BitNamed(n)
  {
    hide BitNamed;
    match n
    case 120 => RowNamed(120, 19, 26, 57);
    case 121 => RowNamed(121, 3, 46, 82);
    case 122 => RowNamed(122, 14, 15, 58);
    case 123 => RowNamed(123, 33, 52, 53);
    case 124 => RowNamed(124, 30, 43, 52);
    case 125 => RowNamed(125, 6, 9, 52);
    case 126 => RowNamed(126, 27, 33, 65);
    case 127 => RowNamed(127, 25, 69, 73);
    case 128 => RowNamed(128, 38, 55, 83);
    case 129 => RowNamed(129, 20, 39, 77);
  }

  lemma NamedFrom130(n: nat)
    requires 130 <= n < 140
    ensures BitNamed(n)
  {
    hide BitNamed;
    match n
    case 130 => RowNamed(130, 18, 29, 56);
    case 131 => RowNamed(131, 32, 48, 71);
    case 132 => RowNamed(132, 42, 51, 59);
    case 133 => RowNamed(133, 28, 44, 79);
    case 134 => RowNamed(134, 34, 60, 62);
    case 135 => RowNamed(135, 31, 45, 61);
    case 136 => RowNamed(136, 46, 68, 77);
    case 137 => RowNamed(137, 6, 24, 76);
    case 138 => RowNamed(138, 8, 10, 78);
    case 139 => RowNamed(139, 40, 41, 70);
  }

  lemma NamedFrom140(n: nat)
    requires 140 <= n < 150
    ensures BitNamed(n)
  {
    hide BitNamed;
    match n
    case 140 => RowNamed(140, 17, 50, 53);
    case 141 => RowNamed(141, 42, 66, 68);
    case 142 => RowNamed(142, 4, 22, 72);
    case 143 => RowNamed(143, 36, 64, 81);
    case 144 => RowNamed(144, 13, 29, 47);
    case 145 => RowNamed(145, 2, 8, 81);
    case 146 => RowNamed(146, 56, 67, 73);
    case 147 => RowNamed(147, 5, 38, 50);
    case 148 => RowNamed(148, 12, 38, 64);
    case 149 => RowNamed(149, 59, 72, 80);
  }

  lemma NamedFrom150(n: nat)
    requires 150 <= n < 160
    ensures BitNamed(n)
  {
    hide BitNamed;
    match n
    case 150 => RowNamed(150, 3, 26, 79);
    case 151 => RowNamed(151, 45, 76, 81);
    case 152 => RowNamed(152, 1, 65, 74);
    case 153 => RowNamed(153, 7, 18, 77);
    case 154 => RowNamed(154, 11, 56, 59);
    case 155 => RowNamed(155, 14, 39, 54);
    case 156 => RowNamed(156, 16, 37, 66);
    case 157 => RowNamed(157, 10, 28, 55);
    case 158 => RowNamed(158, 15, 60, 70);
    case 159 => RowNamed(159, 17, 25, 82);
  }

  lemma NamedFrom160(n: nat)
    requires 160 <= n < 170
    ensures BitNamed(n)
  {
    hide BitNamed;
    match n
    case 160 => RowNamed(160, 20, 30, 31);
    case 161 => RowNamed(161, 12, 67, 68);
    case 162 => RowNamed(162, 23, 75, 80);
    case 163 => RowNamed(163, 27, 32, 62);
    case 164 => RowNamed(164, 24, 69, 75);
    case 165 => RowNamed(165, 19, 21, 71);
    case 166 => RowNamed(166, 34, 53, 61);
    case 167 => RowNamed(167, 35, 46, 47);
    case 168 => RowNamed(168, 33, 59, 76);
    case 169 => RowNamed(169, 40, 43, 83);
  }

  lemma NamedFrom170(n: nat)
    requires 170 <= n < 174
    ensures BitNamed(n)
  {
    hide BitNamed;
    match n
    case 170 => RowNamed(170, 41, 42, 63);
    case 171 => RowNamed(171, 49, 75, 83);
    case 172 => RowNamed(172, 20, 44, 48);
    case 173 => RowNamed(173, 42, 49, 57);
  }

  lemma EveryBitNamed(n: nat)
    requires n < N
    ensures BitNamed(n)
  {
    hide BitNamed;
    if n < 10 { NamedFrom0(n); }
    else if n < 20 { NamedFrom10(n); }
    else if n < 30 { NamedFrom20(n); }
    else if n < 40 { NamedFrom30(n); }
    else if n < 50 { NamedFrom40(n); }
    else if n < 60 { NamedFrom50(n); }
    else if n < 70 { NamedFrom60(n); }
    else if n < 80 { NamedFrom70(n); }
    else if n < 90 { NamedFrom80(n); }
    else if n < 100 { NamedFrom90(n); }
    else if n < 110 { NamedFrom100(n); }
    else if n < 120 { NamedFrom110(n); }
    else if n < 130 { NamedFrom120(n); }
    else if n < 140 { NamedFrom130(n); }
    else if n < 150 { NamedFrom140(n); }
    else if n < 160 { NamedFrom150(n); }
    else if n < 170 { NamedFrom160(n); }
    else { NamedFrom170(n); }
  }

  // ----- what follows -----

  /** Check m names bit n, at some place. */
  predicate InCheck(m: nat, n: nat)
    requires m < M
  {
    exists j :: 0 <= j < NumRows(m) && EntryIs(CheckRow(m), j, n)
  }

  predicate EntryIs(c: Check, j: nat, n: nat)
    requires j < 7
  {
    c.Entry(j) == n + 1
  }

  /** Bit n lists check m, at some place. */
  predicate InBit(n: nat, m: nat)
    requires n < N
  {
    exists k :: 0 <= k < 3 && BitEntryIs(BitRow(n), k, m)
  }

  predicate BitEntryIs(b: BitChecks, k: nat, m: nat)
    requires k < 3
  {
    b.Entry(k) == m + 1
  }

  /** The tables are transposed to each other. */
  lemma TablesTransposed(m: nat, n: nat)
    requires m < M && n < N
    ensures InCheck(m, n) <==> InBit(n, m)
  {
    hide CheckRow, BitRow, NumRows;
    NumRowsCountsEntries(m);
    if InCheck(m, n) {
      var j :| 0 <= j < NumRows(m) && EntryIs(CheckRow(m), j, n);
      EveryCheckListed(m);
      assert Lists(n + 1, m);
      var b := BitRow(n);
      assert BitEntryIs(b, 0, m) || BitEntryIs(b, 1, m) || BitEntryIs(b, 2, m);
    }
    if InBit(n, m) {
      EveryBitNamed(n);
      assert Names(m + 1, n);
      var c := CheckRow(m);
      assert EntryIs(c, 0, n) || EntryIs(c, 1, n) || EntryIs(c, 2, n) || EntryIs(c, 3, n) || EntryIs(c, 4, n)
          || EntryIs(c, 5, n) || EntryIs(c, 6, n);
    }
  }

  /** Of the three messages to bit n, which check m names, exactly one comes from m. */
  lemma OneMessageLeftOut(m: nat, n: nat) returns (k: nat)
    requires m < M && n < N && InCheck(m, n)
    ensures k < 3 && forall i :: 0 <= i < 3 ==> (BitEntryIs(BitRow(n), i, m) <==> i == k)
  {
    hide CheckRow, BitRow, NumRows, InCheck;
    TablesTransposed(m, n);
    EveryBitNamed(n);
    k :| 0 <= k < 3 && BitEntryIs(BitRow(n), k, m);
  }

  /** Of the messages to check m, which bit n lists, exactly one comes from n. */
  lemma OneFactorLeftOut(n: nat, m: nat) returns (j: nat)
    requires m < M && n < N && InBit(n, m)
    ensures j < NumRows(m) && forall i :: 0 <= i < NumRows(m) ==> (EntryIs(CheckRow(m), i, n) <==> i == j)
  {
    hide CheckRow, BitRow, NumRows, InBit;
    TablesTransposed(m, n);
    NumRowsCountsEntries(m);
    EveryCheckListed(m);
    j :| 0 <= j < NumRows(m) && EntryIs(CheckRow(m), j, n);
  }
}
