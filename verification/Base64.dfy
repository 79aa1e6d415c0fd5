/** Base64, section 4 of RFC 4648. */
module Base64 {
  import opened Options

  type Byte = x: int | 0 <= x < 256

  type Sextet = x: int | 0 <= x < 64

  /** The alphabet of table 1. */
  function Letter(i: Sextet): char
  {
    if i < 26 then 'A' + i as char
    else if i < 52 then 'a' + (i - 26) as char
    else if i < 62 then '0' + (i - 52) as char
    else if i == 62 then '+' else '/'
  }

  function Index(c: char): (r: Option<Sextet>)
  {
    if 'A' <= c <= 'Z' then Some((c - 'A') as int)
    else if 'a' <= c <= 'z' then Some((c - 'a') as int + 26)
    else if '0' <= c <= '9' then Some((c - '0') as int + 52)
    else if c == '+' then Some(62)
    else if c == '/' then Some(63)
    else None
  }

  /** The letters of each kind in their order. */
  lemma Alphabet(i: Sextet)
    ensures i < 26 ==> Letter(i) == "ABCDEFGHIJKLMNOPQRSTUVWXYZ"[i]
    ensures 26 <= i < 52 ==> Letter(i) == "abcdefghijklmnopqrstuvwxyz"[i - 26]
    ensures 52 <= i < 62 ==> Letter(i) == "0123456789"[i - 52]
    ensures i >= 62 ==> Letter(i) == "+/"[i - 62]
  {
  }

  lemma LetterIndex(i: Sextet)
    ensures Index(Letter(i)) == Some(i) && Letter(i) != '='
  {
  }

  lemma IndexLetter(c: char)
    requires Index(c).Some?
    ensures Letter(Index(c).value) == c
  {
  }

  function Encode(b: seq<Byte>): string
  {
    if b == [] then ""
    else if |b| == 1 then [Letter(b[0] / 4), Letter(b[0] % 4 * 16), '=', '=']
    else if |b| == 2 then [Letter(b[0] / 4), Letter(b[0] % 4 * 16 + b[1] / 16), Letter(b[1] % 16 * 4), '=']
    else
      [Letter(b[0] / 4), Letter(b[0] % 4 * 16 + b[1] / 16), Letter(b[1] % 16 * 4 + b[2] / 64), Letter(b[2] % 64)]
      + Encode(b[3..])
  }

  /** The bytes of one group of four characters. */
  function DecodeGroup(a: char, b: char, c: char, d: char, last: bool): Option<seq<Byte>>
  {
    var i, j, k, l := Index(a), Index(b), Index(c), Index(d);
    if i == None || j == None then None
    else if last && c == '=' && d == '=' then Some([i.value * 4 + j.value / 16])
    else if k == None then None
    else if last && d == '=' then Some([i.value * 4 + j.value / 16, j.value % 16 * 16 + k.value / 4])
    else if l == None then None
    else Some([i.value * 4 + j.value / 16, j.value % 16 * 16 + k.value / 4, k.value % 4 * 64 + l.value])
  }

  /** Decoding with validation: nothing but the alphabet, and padding only at the end. */
  function Decode(s: string): Option<seq<Byte>>
  {
    if s == "" then Some([])
    else if |s| < 4 then None
    else
      var first := DecodeGroup(s[0], s[1], s[2], s[3], |s| == 4);
      if first == None then None
      else
        var rest := Decode(s[4..]);
        if rest == None then None else Some(first.value + rest.value)
  }

  lemma Ungroup(i: Sextet, j: Sextet, k: Sextet, l: Sextet)
    ensures var x, y, z := i * 4 + j / 16, j % 16 * 16 + k / 4, k % 4 * 64 + l;
            && x < 256 && y < 256 && z < 256
            && x / 4 == i && x % 4 * 16 + y / 16 == j && y % 16 * 4 + z / 64 == k && z % 64 == l
            && x % 4 * 16 == j - j % 16 && y % 16 * 4 == k - k % 4
  {
  }

  lemma OneByte(x: Byte)
    ensures DecodeGroup(Letter(x / 4), Letter(x % 4 * 16), '=', '=', true) == Some([x])
  {
    hide Letter, Index;
    LetterIndex(x / 4);
    LetterIndex(x % 4 * 16);
  }

  lemma TwoBytes(x: Byte, y: Byte)
    ensures DecodeGroup(Letter(x / 4), Letter(x % 4 * 16 + y / 16), Letter(y % 16 * 4), '=', true) == Some([x, y])
  {
    hide Letter, Index;
    LetterIndex(x / 4);
    LetterIndex(x % 4 * 16 + y / 16);
    LetterIndex(y % 16 * 4);
  }

  lemma ThreeBytes(x: Byte, y: Byte, z: Byte, last: bool)
    ensures DecodeGroup(Letter(x / 4), Letter(x % 4 * 16 + y / 16), Letter(y % 16 * 4 + z / 64), Letter(z % 64), last)
            == Some([x, y, z])
  {
    hide Letter, Index;
    LetterIndex(x / 4);
    LetterIndex(x % 4 * 16 + y / 16);
    LetterIndex(y % 16 * 4 + z / 64);
    LetterIndex(z % 64);
  }

  /** Decoding undoes encoding. */
  lemma {:induction false} RoundTrip(b: seq<Byte>)
    ensures Decode(Encode(b)) == Some(b)
    decreases |b|
  {
    hide DecodeGroup, Letter;
    if b == [] {
    } else if |b| == 1 {
      OneByte(b[0]);
      assert Encode(b)[4..] == "" && b == [b[0]] + [];
    } else if |b| == 2 {
      TwoBytes(b[0], b[1]);
      assert Encode(b)[4..] == "" && b == [b[0], b[1]] + [];
    } else {
      ThreeBytes(b[0], b[1], b[2], |Encode(b)| == 4);
      RoundTrip(b[3..]);
      assert Encode(b)[4..] == Encode(b[3..]);
      assert b == [b[0], b[1], b[2]] + b[3..];
    }
  }

  /** The test vectors of section 10 of RFC 4648. */
  lemma TestVectors()
    ensures Encode([102]) == "Zg==" && Encode([102, 111]) == "Zm8=" && Encode([102, 111, 111]) == "Zm9v"
    ensures Encode([102, 111, 111, 98]) == "Zm9vYg==" && Encode([102, 111, 111, 98, 97]) == "Zm9vYmE="
    ensures Encode([102, 111, 111, 98, 97, 114]) == "Zm9vYmFy"
  {
    hide Letter;
    LettersOfVectors();
    assert [102, 111, 111, 98][3..] == [98] && [102, 111, 111, 98, 97][3..] == [98, 97];
    assert [102, 111, 111, 98, 97, 114][3..] == [98, 97, 114];
  }

  lemma LettersOfVectors()
    ensures Letter(25) == 'Z' && Letter(38) == 'm' && Letter(61) == '9' && Letter(47) == 'v' && Letter(32) == 'g'
    ensures Letter(60) == '8' && Letter(24) == 'Y' && Letter(4) == 'E' && Letter(5) == 'F' && Letter(50) == 'y'
  {
  }

  /** The bits that padding leaves over are zero. */
  predicate NoStrayBits(s: string)
  {
    |s| >= 4 && s[|s| - 1] == '=' ==>
      if s[|s| - 2] == '=' then Index(s[|s| - 3]).Some? && Index(s[|s| - 3]).value % 16 == 0
      else Index(s[|s| - 2]).Some? && Index(s[|s| - 2]).value % 4 == 0
  }

  /** A full group is the encoding of its bytes. */
  lemma FullGroup(a: char, b: char, c: char, d: char, last: bool)
    requires DecodeGroup(a, b, c, d, last).Some? && d != '='
    ensures var bytes := DecodeGroup(a, b, c, d, last).value;
            && |bytes| == 3
            && [Letter(bytes[0] / 4), Letter(bytes[0] % 4 * 16 + bytes[1] / 16),
                Letter(bytes[1] % 16 * 4 + bytes[2] / 64),
                Letter(bytes[2] % 64)] == [a, b, c, d]
  {
    hide Letter, Index;
    Ungroup(Index(a).value, Index(b).value, Index(c).value, Index(d).value);
    IndexLetter(a);
    IndexLetter(b);
    IndexLetter(c);
    IndexLetter(d);
  }

  lemma PaddedGroup(a: char, b: char, c: char)
    requires DecodeGroup(a, b, c, '=', true).Some?
    ensures Encode(DecodeGroup(a, b, c, '=', true).value) == [a, b, c, '='] <==> NoStrayBits([a, b, c, '='])
  {
    hide Letter, Index;
    var i: int, j: int := Index(a).value, Index(b).value;
    IndexLetter(a);
    IndexLetter(b);
    if c == '=' {
      Ungroup(i, j, 0, 0);
      LetterIndex(j - j % 16);
      var bytes: seq<Byte> := [i * 4 + j / 16];
      assert Encode(bytes) == [a, Letter(j - j % 16), '=', '='];
    } else {
      var k: int := Index(c).value;
      IndexLetter(c);
      Ungroup(i, j, k, 0);
      LetterIndex(k - k % 4);
      var bytes: seq<Byte> := [i * 4 + j / 16, j % 16 * 16 + k / 4];
      assert Encode(bytes) == [a, b, Letter(k - k % 4), '='];
    }
  }

  /** Only the last group is padded. */
  lemma PadEndsTheText(a: char, b: char, c: char, d: char, last: bool)
    requires DecodeGroup(a, b, c, d, last).Some? && d == '='
    ensures last
  {
  }

  /** What decodes is the encoding of its bytes exactly if padding leaves no stray bits. */
  lemma {:induction false} Canonical(s: string)
    requires Decode(s).Some?
    ensures Encode(Decode(s).value) == s <==> NoStrayBits(s)
    decreases |s|
  {
    hide DecodeGroup, Letter, Index;
    if s != "" {
      var rest := s[4..];
      var first := DecodeGroup(s[0], s[1], s[2], s[3], |s| == 4).value;
      assert s == [s[0], s[1], s[2], s[3]] + rest;
      if rest == "" && s[3] == '=' {
        PaddedGroup(s[0], s[1], s[2]);
        assert first + [] == first;
      } else {
        if s[3] == '=' {
          PadEndsTheText(s[0], s[1], s[2], s[3], |s| == 4);
        }
        FullGroup(s[0], s[1], s[2], s[3], |s| == 4);
        Canonical(rest);
        var bytes := Decode(s).value;
        assert bytes[3..] == Decode(rest).value;
        assert bytes[0] == first[0] && bytes[1] == first[1] && bytes[2] == first[2];
        assert Encode(bytes) == [s[0], s[1], s[2], s[3]] + Encode(bytes[3..]);
        assert Encode(bytes)[4..] == Encode(bytes[3..]);
        assert |rest| >= 4 || rest == "";
      }
    }
  }
}
