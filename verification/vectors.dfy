/** Pinned tag values for one concrete packet context, so that any other
    implementation of the generators can be compared against them. The FNV-1a
    intermediate states below are the hash after each input byte. */
module TagVectors {
  import opened Bytes
  import opened Tags

  const ScenarioMagic: seq<byte> := [0, 0, 0, 0, 0, 0, 0, 0]

  /** The little-endian bytes of the two ports and of the length. */
  lemma ScenarioBytes()
    ensures LE2(1000) == [0xE8, 0x03]
    ensures LE2(2000) == [0xD0, 0x07]
    ensures U32Of(20) == 20 && LE4(20) == [20, 0, 0, 0]
  {
    Pow256Widths();
    assert LE(0, 0) == [];
    assert LE(3, 1) == [3] && LE(7, 1) == [7] && LE(0, 1) == [0];
    assert LE(1000, 2) == [0xE8] + LE(3, 1);
    assert LE(2000, 2) == [0xD0] + LE(7, 1);
    assert LE(0, 2) == [0, 0] && LE(0, 3) == [0, 0, 0];
    assert LE(20, 4) == [20] + LE(0, 3);
  }

  /** One concrete context: magic of eight zero bytes, from 1.2.3.4:1000,
      to 5.6.7.8:2000, packet length 20. */
  lemma ScenarioChonkle()
    ensures Chonkle(ScenarioMagic, [1, 2, 3, 4], 1000, [5, 6, 7, 8], 2000, 20)
         == [45, 216, 24, 33, 80, 96, 162, 7, 83, 126, 182, 41, 43, 214, 134]
  {
    ScenarioBytes();
    ScenarioFnvMagic();
    ScenarioFnvFrom();
    ScenarioFnvFromPort();
    ScenarioFnvTo();
    ScenarioFnvToPort();
    ScenarioFnvLength();
    assert ChonkleHash(ScenarioMagic, [1, 2, 3, 4], 1000, [5, 6, 7, 8], 2000, 20) == 0xebc82280d04efa21;
    ScenarioRedistribution();
  }

  lemma ScenarioFnvMagic()
    ensures FnvWrite(0xcbf29ce484222325, ScenarioMagic) == 0xa8c7f832281a39c5
  {
    var s: seq<byte> := ScenarioMagic;
    assert FnvWrite(0xa8c7f832281a39c5, s[8..]) == 0xa8c7f832281a39c5;
    assert FnvWrite(0x778b1a14b6876aa7, s[7..]) == 0xa8c7f832281a39c5;
    assert FnvWrite(0xd7e4fcfa299d713d, s[6..]) == 0xa8c7f832281a39c5;
    assert FnvWrite(0xe4bc4fd9252be94f, s[5..]) == 0xa8c7f832281a39c5;
    assert FnvWrite(0x4d25767f9dce13f5, s[4..]) == 0xa8c7f832281a39c5;
    assert FnvWrite(0xd94d12186c0f2fb7, s[3..]) == 0xa8c7f832281a39c5;
    assert FnvWrite(0x08328807b4eb6fed, s[2..]) == 0xa8c7f832281a39c5;
    assert FnvWrite(0xaf63bd4c8601b7df, s[1..]) == 0xa8c7f832281a39c5;
    assert FnvWrite(0xcbf29ce484222325, s[0..]) == 0xa8c7f832281a39c5;
    assert s[0..] == s;
  }

  lemma ScenarioFnvFrom()
    ensures FnvWrite(0xa8c7f832281a39c5, [1, 2, 3, 4]) == 0xc5bc98d1d0a7c8fd
  {
    var s: seq<byte> := [1, 2, 3, 4];
    assert FnvWrite(0xc5bc98d1d0a7c8fd, s[4..]) == 0xc5bc98d1d0a7c8fd;
    assert FnvWrite(0xbfe31cdbfeb6d28b, s[3..]) == 0xc5bc98d1d0a7c8fd;
    assert FnvWrite(0x69cfa3cc20f40fca, s[2..]) == 0xc5bc98d1d0a7c8fd;
    assert FnvWrite(0xe604813a2490280c, s[1..]) == 0xc5bc98d1d0a7c8fd;
    assert FnvWrite(0xa8c7f832281a39c5, s[0..]) == 0xc5bc98d1d0a7c8fd;
    assert s[0..] == s;
  }

  lemma ScenarioFnvFromPort()
    ensures FnvWrite(0xc5bc98d1d0a7c8fd, [0xE8, 0x03]) == 0x4a5181eec173a544
  {
    var s: seq<byte> := [0xE8, 0x03];
    assert FnvWrite(0x4a5181eec173a544, s[2..]) == 0x4a5181eec173a544;
    assert FnvWrite(0xa73fc1858d18fbaf, s[1..]) == 0x4a5181eec173a544;
    assert FnvWrite(0xc5bc98d1d0a7c8fd, s[0..]) == 0x4a5181eec173a544;
    assert s[0..] == s;
  }

  lemma ScenarioFnvTo()
    ensures FnvWrite(0x4a5181eec173a544, [5, 6, 7, 8]) == 0x9f5acec9960d0f70
  {
    var s: seq<byte> := [5, 6, 7, 8];
    assert FnvWrite(0x9f5acec9960d0f70, s[4..]) == 0x9f5acec9960d0f70;
    assert FnvWrite(0x2d290c5b17e29ad8, s[3..]) == 0x9f5acec9960d0f70;
    assert FnvWrite(0x34bcefadd1901dcf, s[2..]) == 0x9f5acec9960d0f70;
    assert FnvWrite(0xbc2509b2b781cd73, s[1..]) == 0x9f5acec9960d0f70;
    assert FnvWrite(0x4a5181eec173a544, s[0..]) == 0x9f5acec9960d0f70;
    assert s[0..] == s;
  }

  lemma ScenarioFnvToPort()
    ensures FnvWrite(0x9f5acec9960d0f70, [0xD0, 0x07]) == 0x0b94d170bc326c85
  {
    var s: seq<byte> := [0xD0, 0x07];
    assert FnvWrite(0x0b94d170bc326c85, s[2..]) == 0x0b94d170bc326c85;
    assert FnvWrite(0xd45d0089f8318ce0, s[1..]) == 0x0b94d170bc326c85;
    assert FnvWrite(0x9f5acec9960d0f70, s[0..]) == 0x0b94d170bc326c85;
    assert s[0..] == s;
  }

  lemma ScenarioFnvLength()
    ensures FnvWrite(0x0b94d170bc326c85, [20, 0, 0, 0]) == 0xebc82280d04efa21
  {
    var s: seq<byte> := [20, 0, 0, 0];
    assert FnvWrite(0xebc82280d04efa21, s[4..]) == 0xebc82280d04efa21;
    assert FnvWrite(0x91c30739f83d62db, s[3..]) == 0xebc82280d04efa21;
    assert FnvWrite(0xd062c053b379f639, s[2..]) == 0xebc82280d04efa21;
    assert FnvWrite(0xe04c738fc9ae7a63, s[1..]) == 0xebc82280d04efa21;
    assert FnvWrite(0x0b94d170bc326c85, s[0..]) == 0xebc82280d04efa21;
    assert s[0..] == s;
  }

  lemma ScenarioRedistribution()
    ensures ChonkleOfHashBytes(HashBytes(0xebc82280d04efa21))
         == [45, 216, 24, 33, 80, 96, 162, 7, 83, 126, 182, 41, 43, 214, 134]
  {
    var d: seq<byte> := [0x21, 0xFA, 0x4E, 0xD0, 0x80, 0x22, 0xC8, 0xEB];
    assert HashBytes(0xebc82280d04efa21) == d;
    var t := ChonkleOfHashBytes(d);
    assert t[..5] == [45, 216, 24, 33, 80];
    assert t[5..10] == [96, 162, 7, 83, 126];
    assert t[10..] == [182, 41, 43, 214, 134];
    assert t == t[..5] + t[5..10] + t[10..];
  }

  lemma ScenarioPittle()
    ensures Pittle([1, 2, 3, 4], 1000, [5, 6, 7, 8], 2000, 20) == [59, 181]
  {
    ScenarioBytes();
    assert PittleInput([1, 2, 3, 4], 1000, [5, 6, 7, 8], 2000, 20)
        == [1, 2, 3, 4] + [0xE8, 0x03] + [5, 6, 7, 8] + [0xD0, 0x07] + [20, 0, 0, 0];
    ScenarioSum();
    ScenarioPittleOfSum();
  }

  lemma ScenarioSum()
    ensures Sum16([1, 2, 3, 4] + [0xE8, 0x03] + [5, 6, 7, 8] + [0xD0, 0x07] + [20, 0, 0, 0]) == 506
  {
    var f: seq<byte>, fp: seq<byte>, t: seq<byte>, tp: seq<byte>, l: seq<byte> :=
      [1, 2, 3, 4], [0xE8, 0x03], [5, 6, 7, 8], [0xD0, 0x07], [20, 0, 0, 0];
    assert Total(f) == 10 by {
      assert Total(f[3..]) == 4 && Total(f[2..]) == 7 && Total(f[1..]) == 9;
    }
    assert Total(fp) == 0xEB by { assert Total(fp[1..]) == 3; }
    assert Total(t) == 26 by {
      assert Total(t[3..]) == 8 && Total(t[2..]) == 15 && Total(t[1..]) == 21;
    }
    assert Total(tp) == 0xD7 by { assert Total(tp[1..]) == 7; }
    assert Total(l) == 20 by {
      assert Total(l[3..]) == 0 && Total(l[2..]) == 0 && Total(l[1..]) == 0;
    }
    TotalAppend(f, fp);
    TotalAppend(f + fp, t);
    TotalAppend(f + fp + t, tp);
    TotalAppend(f + fp + t + tp, l);
  }

  lemma ScenarioPittleOfSum()
    ensures PittleOfSum(506) == [59, 181]
  {
    Pow256Widths();
    assert LE(1, 1) == [1] by { assert LE(0, 0) == []; }
    assert 506 % 256 == 250 && 506 / 256 == 1;
    assert LE2(506) == [250, 1];
    var o0: byte := 1 | (250 ^ 1 ^ 193);
    assert o0 == 59;
    assert (1 | ((255 - o0) ^ 113)) == 181;
  }
}
