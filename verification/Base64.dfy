/** Unpadded standard base64 (sections 3.2 and 4 of RFC 4648), as the lenient decoder reads it. */
module Base64 {
  import opened Common

  type byte = x: int | 0 <= x < 256

  type sextet = x: int | 0 <= x < 64

  function CharOf(v: sextet): (c: char)
    ensures c != '$' && c != '\r' && c != '\n'
  {
    if v < 26 then ('A' as int + v) as char
    else if v < 52 then ('a' as int + v - 26) as char
    else if v < 62 then ('0' as int + v - 52) as char
    else if v == 62 then '+'
    else '/'
  }

  /** The decode table: None for a character outside the alphabet. */
  function SextetOf(c: char): (v: Option<sextet>)
    ensures v.Some? ==> CharOf(v.value) == c
  {
    if 'A' <= c <= 'Z' then Some(c as int - 'A' as int)
    else if 'a' <= c <= 'z' then Some(c as int - 'a' as int + 26)
    else if '0' <= c <= '9' then Some(c as int - '0' as int + 52)
    else if c == '+' then Some(62)
    else if c == '/' then Some(63)
    else None
  }

  lemma SextetOfChar(v: sextet)
    ensures SextetOf(CharOf(v)) == Some(v)
  {
  }

  /** The 24 bits of three bytes, regrouped by six. */
  function Sextets(a: byte, b: byte, c: byte): (sextet, sextet, sextet, sextet) {
    (a / 4, a % 4 * 16 + b / 16, b % 16 * 4 + c / 64, c % 64)
  }

  /** The same 24 bits, regrouped by eight. */
  function Bytes(p: sextet, q: sextet, r: sextet, s: sextet): (byte, byte, byte) {
    (p * 4 + q / 16, q % 16 * 16 + r / 4, r % 4 * 64 + s)
  }

  /** The four characters of three bytes. */
  function Quad(a: byte, b: byte, c: byte): (s: string)
    ensures |s| == 4
  {
    var (p, q, r, t) := Sextets(a, b, c);
    [CharOf(p), CharOf(q), CharOf(r), CharOf(t)]
  }

  /** The three bytes of four characters, if all are in the alphabet. */
  function Triple(c0: char, c1: char, c2: char, c3: char): Option<(byte, byte, byte)> {
    var p, q, r, t := SextetOf(c0), SextetOf(c1), SextetOf(c2), SextetOf(c3);
    if p.None? || q.None? || r.None? || t.None? then None else Some(Bytes(p.value, q.value, r.value, t.value))
  }

  lemma {:induction false} TripleOfQuad(a: byte, b: byte, c: byte)
    ensures var s := Quad(a, b, c); Triple(s[0], s[1], s[2], s[3]) == Some((a, b, c))
    ensures c == 0 ==> Quad(a, b, c)[3] == 'A'
    ensures b == 0 && c == 0 ==> Quad(a, b, c)[2] == 'A'
  {
    var (p, q, r, t) := Sextets(a, b, c);
    SextetOfChar(p);
    SextetOfChar(q);
    SextetOfChar(r);
    SextetOfChar(t);
    BytesOfSextets(a, b, c);
  }

  lemma {:induction false} BytesOfSextets(a: byte, b: byte, c: byte)
    ensures var (p, q, r, t) := Sextets(a, b, c); Bytes(p, q, r, t) == (a, b, c)
  {
    Regroup(a % 4, b / 16, 16);
    Regroup(b % 16, c / 64, 4);
  }

  lemma {:induction false} QuadOfTriple(c0: char, c1: char, c2: char, c3: char)
    requires Triple(c0, c1, c2, c3).Some?
    ensures var (a, b, c) := Triple(c0, c1, c2, c3).value; Quad(a, b, c) == [c0, c1, c2, c3]
  {
    SextetsOfBytes(SextetOf(c0).value, SextetOf(c1).value, SextetOf(c2).value, SextetOf(c3).value);
  }

  lemma {:induction false} SextetsOfBytes(p: sextet, q: sextet, r: sextet, t: sextet)
    ensures var (a, b, c) := Bytes(p, q, r, t); Sextets(a, b, c) == (p, q, r, t)
  {
    Regroup(p, q / 16, 4);
    Regroup(q % 16, r / 4, 16);
    Regroup(r % 4, t, 64);
    var a: byte, b: byte, c: byte := p * 4 + q / 16, q % 16 * 16 + r / 4, r % 4 * 64 + t;
    assert a / 4 == p && a % 4 == q / 16;
    assert b / 16 == q % 16 && b % 16 == r / 4;
    assert c / 64 == r % 4 && c % 64 == t;
    assert Bytes(p, q, r, t) == (a, b, c);
  }

  lemma {:induction false} Regroup(hi: int, lo: int, width: int)
    requires 0 <= lo < width && (width == 4 || width == 16 || width == 64)
    ensures (hi * width + lo) / width == hi
    ensures (hi * width + lo) % width == lo
  {
  }

  /** The alphabet of section 4 of RFC 4648: A to Z, a to z, 0 to 9, plus and slash, in this order. */
  lemma {:induction false} AlphabetIs(v: sextet)
    ensures CharOf(0) == 'A' && CharOf(25) == 'Z' && CharOf(26) == 'a' && CharOf(51) == 'z'
    ensures CharOf(52) == '0' && CharOf(61) == '9' && CharOf(62) == '+' && CharOf(63) == '/'
    ensures v !in {25, 51, 61, 62, 63} ==> CharOf(v + 1) as int == CharOf(v) as int + 1
  {
  }

  /** Three bytes and their four sextets are one number of 24 bits, most significant first. */
  lemma {:induction false} SameBits(a: byte, b: byte, c: byte)
    ensures var (p, q, r, t) := Sextets(a, b, c);
            (a * 256 + b) * 256 + c == ((p * 64 + q) * 64 + r) * 64 + t
  {
  }

  function Encode(b: seq<byte>): string {
    if b == [] then []
    else if |b| == 1 then Quad(b[0], 0, 0)[..2]
    else if |b| == 2 then Quad(b[0], b[1], 0)[..3]
    else Quad(b[0], b[1], b[2]) + Encode(b[3..])
  }

  /** Line breaks are skipped wherever they stand. */
  function WithoutBreaks(s: string): string {
    if s == [] then []
    else (if s[0] == '\r' || s[0] == '\n' then [] else [s[0]]) + WithoutBreaks(s[1..])
  }

  /** A last group of two or three characters gives one or two bytes; bits left over are dropped
      unread, and a last group of one character is an error. */
  function DecodeGroups(s: string): Option<seq<byte>> {
    if s == [] then Some([])
    else if |s| == 1 then None
    else
      var t := Triple(s[0], s[1], if |s| > 2 then s[2] else 'A', if |s| > 3 then s[3] else 'A');
      if t.None? then None
      else
        var (a, b, c) := t.value;
        if |s| == 2 then Some([a])
        else if |s| == 3 then Some([a, b])
        else
          var rest := DecodeGroups(s[4..]);
          if rest.None? then None else Some([a, b, c] + rest.value)
  }

  function Decode(s: string): Option<seq<byte>> {
    DecodeGroups(WithoutBreaks(s))
  }

  lemma {:induction false} EncodeAlphabet(b: seq<byte>)
    ensures forall i :: 0 <= i < |Encode(b)| ==> Encode(b)[i] != '$' && Encode(b)[i] != '\r' && Encode(b)[i] != '\n'
  {
    if |b| > 2 {
      EncodeAlphabet(b[3..]);
    }
  }

  lemma {:induction false} NoBreaks(s: string)
    requires forall i :: 0 <= i < |s| ==> s[i] != '\r' && s[i] != '\n'
    ensures WithoutBreaks(s) == s
  {
    if s != [] {
      NoBreaks(s[1..]);
    }
  }

  lemma {:induction false} DecodeGroupsEncode(b: seq<byte>)
    ensures DecodeGroups(Encode(b)) == Some(b)
  {
    if |b| == 1 {
      TripleOfQuad(b[0], 0, 0);
      assert b == [b[0]];
    } else if |b| == 2 {
      TripleOfQuad(b[0], b[1], 0);
      assert b == [b[0], b[1]];
    } else if |b| > 2 {
      TripleOfQuad(b[0], b[1], b[2]);
      DecodeGroupsEncode(b[3..]);
      assert Encode(b)[4..] == Encode(b[3..]);
      assert [b[0], b[1], b[2]] + b[3..] == b;
    }
  }

  /** Decoding undoes encoding, for every byte string. */
  lemma {:induction false} DecodeEncode(b: seq<byte>)
    ensures Decode(Encode(b)) == Some(b)
  {
    EncodeAlphabet(b);
    NoBreaks(Encode(b));
    DecodeGroupsEncode(b);
  }

  /** The bits a short last group leaves over are zero. */
  predicate CleanTail(s: string) {
    && (|s| % 4 == 2 ==> SextetOf(s[|s| - 1]).Some? && SextetOf(s[|s| - 1]).value % 16 == 0)
    && (|s| % 4 == 3 ==> SextetOf(s[|s| - 1]).Some? && SextetOf(s[|s| - 1]).value % 4 == 0)
  }

  lemma {:induction false} EncodeGroupsIff(s: string)
    requires DecodeGroups(s).Some?
    ensures Encode(DecodeGroups(s).value) == s <==> CleanTail(s)
  {
    if |s| == 2 {
      ShortTail(s[0], s[1]);
    } else if |s| == 3 {
      LongTail(s[0], s[1], s[2]);
    } else if |s| > 3 {
      EncodeGroupsIff(s[4..]);
      WholeGroup(s);
      TailOfRest(s);
    }
  }

  lemma {:induction false} TailOfRest(s: string)
    requires |s| > 3
    ensures CleanTail(s) == CleanTail(s[4..])
  {
  }

  lemma {:induction false} WholeGroup(s: string)
    requires |s| > 3 && DecodeGroups(s).Some?
    ensures DecodeGroups(s[4..]).Some?
    ensures Encode(DecodeGroups(s).value) == s <==> Encode(DecodeGroups(s[4..]).value) == s[4..]
  {
    QuadOfTriple(s[0], s[1], s[2], s[3]);
    var (a, b, c) := Triple(s[0], s[1], s[2], s[3]).value;
    PrependQuad(a, b, c, DecodeGroups(s[4..]).value, s);
  }

  lemma {:induction false} PrependQuad(a: byte, b: byte, c: byte, rest: seq<byte>, s: string)
    requires |s| > 3 && Quad(a, b, c) == [s[0], s[1], s[2], s[3]]
    ensures Encode([a, b, c] + rest) == s <==> Encode(rest) == s[4..]
  {
  }

  lemma {:induction false} ShortTail(c: char, d: char)
    requires Triple(c, d, 'A', 'A').Some?
    ensures Encode([Triple(c, d, 'A', 'A').value.0]) == [c, d] <==> SextetOf(d).value % 16 == 0
  {
    var p, q := SextetOf(c).value, SextetOf(d).value;
    Regroup(p, q / 16, 4);
    var a := Bytes(p, q, 0, 0).0;
    assert Sextets(a, 0, 0) == (p, q / 16 * 16, 0, 0);
    assert Encode([a]) == [c, CharOf(q / 16 * 16)];
    SextetOfChar(q / 16 * 16);
  }

  lemma {:induction false} LongTailSextets(p: sextet, q: sextet, r: sextet)
    ensures var (a, b, _) := Bytes(p, q, r, 0); Sextets(a, b, 0) == (p, q, r / 4 * 4, 0)
  {
    Regroup(p, q / 16, 4);
    Regroup(q % 16, r / 4, 16);
    var a: byte, b: byte := p * 4 + q / 16, q % 16 * 16 + r / 4;
    assert a / 4 == p && a % 4 == q / 16 && b / 16 == q % 16 && b % 16 == r / 4;
    assert Bytes(p, q, r, 0).0 == a && Bytes(p, q, r, 0).1 == b;
  }

  lemma {:induction false} LongTail(c: char, d: char, e: char)
    requires Triple(c, d, e, 'A').Some?
    ensures Encode([Triple(c, d, e, 'A').value.0, Triple(c, d, e, 'A').value.1]) == [c, d, e] <==> SextetOf(e).value % 4 == 0
  {
    var p, q, r := SextetOf(c).value, SextetOf(d).value, SextetOf(e).value;
    LongTailSextets(p, q, r);
    var (a, b, _) := Bytes(p, q, r, 0);
    assert Encode([a, b]) == [c, d, CharOf(r / 4 * 4)];
    SextetOfChar(r / 4 * 4);
  }

  /** Of the strings the decoder accepts, encoding gives back exactly those with no line break and a
      clean tail. */
  lemma {:induction false} EncodeDecodeIff(s: string)
    requires Decode(s).Some?
    ensures Encode(Decode(s).value) == s <==> '\r' !in s && '\n' !in s && CleanTail(s)
  {
    EncodeAlphabet(Decode(s).value);
    if '\r' !in s && '\n' !in s {
      NoBreaks(s);
      EncodeGroupsIff(s);
    }
  }

  lemma {:induction false} ShortVectors()
    ensures Encode([]) == "" && Encode([0x66]) == "Zg" && Encode([0x62]) == "Yg"
  {
  }

  lemma {:induction false} TwoByteVector()
    ensures Encode([0x66, 0x6f]) == "Zm8"
  {
  }

  lemma {:induction false} GroupVector()
    ensures Quad(0x66, 0x6f, 0x6f) == "Zm9v"
  {
  }

  /** Test vectors of section 10 of RFC 4648, without padding: "", "f", "fo", "foo", "foob". */
  lemma {:induction false} Vectors()
    ensures Encode([]) == "" && Encode([0x66]) == "Zg" && Encode([0x66, 0x6f]) == "Zm8"
    ensures Encode([0x66, 0x6f, 0x6f]) == "Zm9v" && Encode([0x66, 0x6f, 0x6f, 0x62]) == "Zm9vYg"
  {
    ShortVectors();
    TwoByteVector();
    GroupVector();
    assert [0x66, 0x6f, 0x6f][3..] == [];
    assert [0x66, 0x6f, 0x6f, 0x62][3..] == [0x62];
    assert "Zm9v" + "Yg" == "Zm9vYg";
  }
}
