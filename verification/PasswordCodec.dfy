/** The textual form of an Argon2id hash: the printer, the parser, and the two calls that use them. */
module PasswordCodec {
  import opened Base64
  import opened Common
  import opened Decimals

  type uint32 = x: int | 0 <= x < 0x1_0000_0000

  type uint8 = x: int | 0 <= x < 0x100

  datatype Params = Params(memory: uint32, iterations: uint32, parallelism: uint8, saltLength: uint32, keyLength: uint32)

  datatype Parsed = Parsed(params: Params, salt: seq<byte>, hash: seq<byte>)

  datatype Error =
    | InvalidFormat
    | BadVersion
    | IncompatibleVersion(version: int)
    | BadParams
    | BadSalt
    | BadHash
    | NoSalt

  datatype Result<+T> = Ok(value: T) | Err(error: Error)

  const ARGON2_VERSION := 19

  const ARGON2_PARAMS := Params(64 * 1024, 3, 4, 16, 32)

  // ----- strings.Split and its inverse -----

  /** Cuts at every separator, so that n separators give n + 1 parts. */
  function Split(s: string, sep: char): (parts: seq<string>)
    ensures parts != []
  {
    if s == [] then [[]]
    else
      var rest := Split(s[1..], sep);
      if s[0] == sep then [[]] + rest else [[s[0]] + rest[0]] + rest[1..]
  }

  function Join(parts: seq<string>, sep: char): string
    requires parts != []
  {
    if |parts| == 1 then parts[0] else parts[0] + [sep] + Join(parts[1..], sep)
  }

  predicate Without(s: string, sep: char) {
    sep !in s
  }

  lemma {:induction false} LongerFirst(c: char, parts: seq<string>, sep: char)
    requires parts != []
    ensures Join([[c] + parts[0]] + parts[1..], sep) == [c] + Join(parts, sep)
  {
    var longer := [[c] + parts[0]] + parts[1..];
    assert longer[1..] == parts[1..];
  }

  lemma {:induction false} JoinSplit(s: string, sep: char)
    ensures Join(Split(s, sep), sep) == s
    ensures forall i :: 0 <= i < |Split(s, sep)| ==> Without(Split(s, sep)[i], sep)
  {
    if s != [] {
      JoinSplit(s[1..], sep);
      var parts, rest := Split(s, sep), Split(s[1..], sep);
      assert s == [s[0]] + s[1..];
      if s[0] == sep {
        assert parts[1..] == rest;
      } else {
        assert parts[1..] == rest[1..];
        LongerFirst(s[0], rest, sep);
      }
    }
  }

  lemma {:induction false} SplitPart(s: string, sep: char)
    requires Without(s, sep)
    ensures Split(s, sep) == [s]
  {
    if s != [] {
      SplitPart(s[1..], sep);
      assert s == [s[0]] + s[1..];
    }
  }

  lemma {:induction false} SplitAt(s: string, t: string, sep: char)
    requires Without(s, sep)
    ensures Split(s + [sep] + t, sep) == [s] + Split(t, sep)
  {
    var whole := s + [sep] + t;
    if s == [] {
      assert whole[1..] == t;
    } else {
      SplitAt(s[1..], t, sep);
      assert whole[1..] == s[1..] + [sep] + t;
      assert s == [s[0]] + s[1..];
    }
  }

  lemma {:induction false} SplitJoin(parts: seq<string>, sep: char)
    requires parts != []
    requires forall i :: 0 <= i < |parts| ==> Without(parts[i], sep)
    ensures Split(Join(parts, sep), sep) == parts
  {
    if |parts| == 1 {
      SplitPart(parts[0], sep);
    } else {
      SplitJoin(parts[1..], sep);
      SplitAt(parts[0], Join(parts[1..], sep), sep);
      assert parts == [parts[0]] + parts[1..];
    }
  }

  // ----- fmt.Sscanf with literals and %d -----

  predicate IsSpace(c: char) {
    || '\t' <= c <= '\r' || c == ' ' || c as int == 0x85 || c as int == 0xa0 || c as int == 0x1680
    || 0x2000 <= c as int <= 0x200a || 0x2028 <= c as int <= 0x2029
    || c as int == 0x202f || c as int == 0x205f || c as int == 0x3000
  }

  /** White space before a verb is skipped, except that a newline is an error. */
  function SkipSpace(s: string): Option<string> {
    if s == [] then Some(s)
    else if s[0] == '\n' then None
    else if IsSpace(s[0]) then SkipSpace(s[1..])
    else Some(s)
  }

  function Literal(s: string, text: string): Option<string> {
    if text <= s then Some(s[|text|..]) else None
  }

  /** Length of the longest run of digits at the start. */
  function DigitRun(s: string): (n: nat)
    ensures n <= |s| && forall i :: 0 <= i < n ==> IsDigit(s[i])
    ensures n < |s| ==> !IsDigit(s[n])
  {
    if s == [] || !IsDigit(s[0]) then 0 else 1 + DigitRun(s[1..])
  }

  function ScanDigits(s: string): (r: Option<(nat, string)>) {
    var n := DigitRun(s);
    if n == 0 then None else Some((Numeral(s[..n]), s[n..]))
  }

  /** %d into an unsigned variable: the number must be below the limit of its type. */
  function ScanUint(s: string, limit: nat): (r: Option<(nat, string)>)
    ensures r.Some? ==> r.value.0 < limit
  {
    var t := SkipSpace(s);
    if t.None? then None
    else
      var d := ScanDigits(t.value);
      if d.None? || d.value.0 >= limit then None else d
  }

  /** %d into an int of 64 bits: one sign may stand before the digits. */
  function ScanInt(s: string): Option<(int, string)> {
    var t := SkipSpace(s);
    if t.None? then None
    else
      var signed := t.value != [] && (t.value[0] == '+' || t.value[0] == '-');
      var d := ScanDigits(if signed then t.value[1..] else t.value);
      if d.None? then None
      else
        var v: int := if signed && t.value[0] == '-' then 0 - d.value.0 else d.value.0;
        if -0x8000_0000_0000_0000 <= v < 0x8000_0000_0000_0000 then Some((v, d.value.1)) else None
  }

  function ScanField(s: string, name: string, limit: nat): (r: Option<(nat, string)>)
    ensures r.Some? ==> r.value.0 < limit
  {
    var t := Literal(s, name);
    if t.None? then None else ScanUint(t.value, limit)
  }

  function ScanVersion(s: string): Option<int> {
    var t := Literal(s, "v=");
    if t.None? then None
    else
      var v := ScanInt(t.value);
      if v.None? then None else Some(v.value.0)
  }

  /** Whatever follows the third number is not looked at. */
  function ScanParams(s: string): Option<(uint32, uint32, uint8)> {
    var m := ScanField(s, "m=", 0x1_0000_0000);
    if m.None? then None
    else
      var t := ScanField(m.value.1, ",t=", 0x1_0000_0000);
      if t.None? then None
      else
        var p := ScanField(t.value.1, ",p=", 0x100);
        if p.None? then None else Some((m.value.0, t.value.0, p.value.0))
  }

  // ----- the codec -----

  function ParamsText(m: string, t: string, p: string): string {
    "m=" + m + ",t=" + t + ",p=" + p
  }

  /** The string HashPassword stores. */
  function Encode(memory: uint32, iterations: uint32, parallelism: uint8, salt: seq<byte>, hash: seq<byte>): string {
    "$argon2id$v=" + SignedDecimal(ARGON2_VERSION)
    + "$" + ParamsText(Decimal(memory), Decimal(iterations), Decimal(parallelism))
    + "$" + Base64.Encode(salt) + "$" + Base64.Encode(hash)
  }

  function Length32(s: seq<byte>): uint32 {
    |s| % 0x1_0000_0000
  }

  /** parseArgon2Hash. The first two parts are never compared with anything. */
  function Parse(encoded: string): Result<Parsed> {
    var parts := Split(encoded, '$');
    if |parts| != 6 then Err(InvalidFormat)
    else
      var version := ScanVersion(parts[2]);
      if version.None? then Err(BadVersion)
      else if version.value != ARGON2_VERSION then Err(IncompatibleVersion(version.value))
      else
        var ps := ScanParams(parts[3]);
        if ps.None? then Err(BadParams)
        else
          var salt, hash := Decode(parts[4]), Decode(parts[5]);
          if salt.None? then Err(BadSalt)
          else if hash.None? then Err(BadHash)
          else
            var params := Params(ps.value.0, ps.value.1, ps.value.2, Length32(salt.value), Length32(hash.value));
            Ok(Parsed(params, salt.value, hash.value))
  }

  /** argon2.IDKey(password, salt, iterations, memory, parallelism, keyLength), not interpreted. */
  type Kdf = (string, seq<byte>, uint32, uint32, uint8, uint32) -> seq<byte>

  /** A key is as long as was asked for. */
  ghost predicate HonoursLength(kdf: Kdf) {
    forall pw, salt, t, m, p, n :: |kdf(pw, salt, t, m, p, n)| == n
  }

  /** The random salt comes from outside; None stands for a failing source. */
  function HashPassword(kdf: Kdf, password: string, salt: Option<seq<byte>>): Result<string> {
    if salt.None? then Err(NoSalt)
    else
      var ps := ARGON2_PARAMS;
      var hash := kdf(password, salt.value, ps.iterations, ps.memory, ps.parallelism, ps.keyLength);
      Ok(Encode(ps.memory, ps.iterations, ps.parallelism, salt.value, hash))
  }

  function VerifyPassword(kdf: Kdf, password: string, encoded: string): Result<bool> {
    var r := Parse(encoded);
    if r.Err? then Err(r.error)
    else
      var v := r.value;
      var other := kdf(password, v.salt, v.params.iterations, v.params.memory, v.params.parallelism, Length32(v.hash));
      Ok(v.hash == other)
  }

  // ----- scanning what was printed -----

  predicate AllDigits(s: string) {
    s != [] && forall i :: 0 <= i < |s| ==> IsDigit(s[i])
  }

  lemma {:induction false} RunOfDigits(d: string, rest: string)
    requires forall i :: 0 <= i < |d| ==> IsDigit(d[i])
    requires rest != [] ==> !IsDigit(rest[0])
    ensures DigitRun(d + rest) == |d|
  {
    if d == [] {
      assert d + rest == rest;
    } else {
      RunOfDigits(d[1..], rest);
      assert (d + rest)[1..] == d[1..] + rest;
    }
  }

  lemma {:induction false} ScanDigitsText(d: string, rest: string)
    requires AllDigits(d) && (rest != [] ==> !IsDigit(rest[0]))
    ensures SkipSpace(d + rest) == Some(d + rest)
    ensures ScanDigits(d + rest) == Some((Numeral(d), rest))
  {
    RunOfDigits(d, rest);
    assert (d + rest)[..|d|] == d && (d + rest)[|d|..] == rest;
    assert IsDigit((d + rest)[0]);
  }

  lemma {:induction false} ScanFieldText(name: string, d: string, rest: string, limit: nat)
    requires AllDigits(d) && (rest != [] ==> !IsDigit(rest[0]))
    ensures ScanField(name + d + rest, name, limit) == if Numeral(d) < limit then Some((Numeral(d), rest)) else None
  {
    assert (name + d + rest)[..|name|] == name;
    assert (name + d + rest)[|name|..] == d + rest;
    ScanDigitsText(d, rest);
  }

  lemma {:induction false} ScanParamsText(m: string, t: string, p: string)
    requires AllDigits(m) && AllDigits(t) && AllDigits(p)
    ensures ScanParams(ParamsText(m, t, p)) ==
            if Numeral(m) < 0x1_0000_0000 && Numeral(t) < 0x1_0000_0000 && Numeral(p) < 0x100
            then Some((Numeral(m), Numeral(t), Numeral(p)))
            else None
  {
    var atP := ",p=" + p;
    var atT := ",t=" + t + atP;
    assert ParamsText(m, t, p) == "m=" + m + atT;
    assert atP == ",p=" + p + [];
    ScanFieldText("m=", m, atT, 0x1_0000_0000);
    ScanFieldText(",t=", t, atP, 0x1_0000_0000);
    ScanFieldText(",p=", p, [], 0x100);
  }

  lemma {:induction false} ScanVersionText(d: string)
    requires AllDigits(d)
    ensures ScanVersion("v=" + d) == if Numeral(d) < 0x8000_0000_0000_0000 then Some(Numeral(d)) else None
  {
    assert ("v=" + d)[2..] == d;
    assert d + [] == d;
    assert IsDigit(d[0]);
    ScanDigitsText(d, []);
  }

  // ----- the encoded string, part by part -----

  function Parts(memory: uint32, iterations: uint32, parallelism: uint8, salt: seq<byte>, hash: seq<byte>): seq<string> {
    ["", "argon2id", "v=" + Decimal(ARGON2_VERSION),
     ParamsText(Decimal(memory), Decimal(iterations), Decimal(parallelism)),
     Base64.Encode(salt), Base64.Encode(hash)]
  }

  lemma {:induction false} JoinSix(parts: seq<string>)
    requires |parts| == 6
    ensures Join(parts, '$') ==
            parts[0] + "$" + parts[1] + "$" + parts[2] + "$" + parts[3] + "$" + parts[4] + "$" + parts[5]
  {
    assert parts[1..][1..] == parts[2..];
    assert parts[2..][1..] == parts[3..];
    assert parts[3..][1..] == parts[4..];
    assert parts[4..][1..] == parts[5..];
    assert Join(parts[5..], '$') == parts[5];
    assert Join(parts[4..], '$') == parts[4] + "$" + parts[5];
    assert Join(parts[3..], '$') == parts[3] + "$" + parts[4] + "$" + parts[5];
    assert Join(parts[2..], '$') == parts[2] + "$" + parts[3] + "$" + parts[4] + "$" + parts[5];
    assert Join(parts[1..], '$') == parts[1] + "$" + parts[2] + "$" + parts[3] + "$" + parts[4] + "$" + parts[5];
  }

  lemma {:induction false} EncodeJoinsParts(m: uint32, t: uint32, p: uint8, salt: seq<byte>, hash: seq<byte>)
    ensures Encode(m, t, p, salt, hash) == Join(Parts(m, t, p, salt, hash), '$')
  {
    var parts := Parts(m, t, p, salt, hash);
    JoinSix(parts);
    assert "$argon2id$v=" + SignedDecimal(ARGON2_VERSION) == parts[0] + "$" + parts[1] + "$" + parts[2];
  }

  lemma {:induction false} PartsHoldNoDollar(m: uint32, t: uint32, p: uint8, salt: seq<byte>, hash: seq<byte>)
    ensures var parts := Parts(m, t, p, salt, hash); forall i :: 0 <= i < |parts| ==> Without(parts[i], '$')
  {
    EncodeAlphabet(salt);
    EncodeAlphabet(hash);
    DigitsHold(Decimal(m), '$');
    DigitsHold(Decimal(t), '$');
    DigitsHold(Decimal(p), '$');
  }

  lemma DigitsHold(s: string, c: char)
    requires AllDigits(s) && !IsDigit(c)
    ensures Without(s, c)
  {
  }

  lemma {:induction false} SplitEncode(m: uint32, t: uint32, p: uint8, salt: seq<byte>, hash: seq<byte>)
    ensures Split(Encode(m, t, p, salt, hash), '$') == Parts(m, t, p, salt, hash)
  {
    EncodeJoinsParts(m, t, p, salt, hash);
    PartsHoldNoDollar(m, t, p, salt, hash);
    SplitJoin(Parts(m, t, p, salt, hash), '$');
  }

  /** The values each of the six parts stands for. */
  predicate ReadsAs(parts: seq<string>, v: Parsed) {
    && |parts| == 6
    && ScanVersion(parts[2]) == Some(ARGON2_VERSION)
    && ScanParams(parts[3]) == Some((v.params.memory, v.params.iterations, v.params.parallelism))
    && Decode(parts[4]) == Some(v.salt)
    && Decode(parts[5]) == Some(v.hash)
  }

  lemma {:induction false} ParseReads(s: string, v: Parsed)
    requires v.params.saltLength == Length32(v.salt) && v.params.keyLength == Length32(v.hash)
    ensures Parse(s) == Ok(v) <==> ReadsAs(Split(s, '$'), v)
  {
  }

  lemma {:induction false} VersionReads()
    ensures ScanVersion("v=" + Decimal(ARGON2_VERSION)) == Some(ARGON2_VERSION)
  {
    NumeralOfDecimal(ARGON2_VERSION);
    ScanVersionText(Decimal(ARGON2_VERSION));
  }

  lemma {:induction false} ParamsRead(m: uint32, t: uint32, p: uint8)
    ensures ScanParams(ParamsText(Decimal(m), Decimal(t), Decimal(p))) == Some((m, t, p))
  {
    NumeralOfDecimal(m);
    NumeralOfDecimal(t);
    NumeralOfDecimal(p);
    ScanParamsText(Decimal(m), Decimal(t), Decimal(p));
  }

  lemma {:induction false} PartsRead(v: Parsed)
    ensures ReadsAs(Parts(v.params.memory, v.params.iterations, v.params.parallelism, v.salt, v.hash), v)
  {
    var parts := Parts(v.params.memory, v.params.iterations, v.params.parallelism, v.salt, v.hash);
    assert ScanVersion(parts[2]) == Some(ARGON2_VERSION) by {
      VersionReads();
    }
    assert ScanParams(parts[3]) == Some((v.params.memory, v.params.iterations, v.params.parallelism)) by {
      ParamsRead(v.params.memory, v.params.iterations, v.params.parallelism);
    }
    assert Decode(parts[4]) == Some(v.salt) by {
      DecodeEncode(v.salt);
    }
    assert Decode(parts[5]) == Some(v.hash) by {
      DecodeEncode(v.hash);
    }
  }

  /** Parsing undoes encoding, for all parameters in range and every salt and hash. */
  lemma {:induction false} RoundTrip(m: uint32, t: uint32, p: uint8, salt: seq<byte>, hash: seq<byte>)
    ensures Parse(Encode(m, t, p, salt, hash)) ==
            Ok(Parsed(Params(m, t, p, Length32(salt), Length32(hash)), salt, hash))
  {
    var v := Parsed(Params(m, t, p, Length32(salt), Length32(hash)), salt, hash);
    SplitEncode(m, t, p, salt, hash);
    PartsRead(v);
    ParseReads(Encode(m, t, p, salt, hash), v);
  }

  function Reencode(v: Parsed): string {
    Encode(v.params.memory, v.params.iterations, v.params.parallelism, v.salt, v.hash)
  }

  /** Re-encoding whatever the parser accepted changes neither the values nor any verdict. */
  lemma {:induction false} ReencodeKeepsVerdicts(kdf: Kdf, password: string, s: string)
    requires Parse(s).Ok?
    ensures Parse(Reencode(Parse(s).value)) == Parse(s)
    ensures VerifyPassword(kdf, password, Reencode(Parse(s).value)) == VerifyPassword(kdf, password, s)
  {
    var v := Parse(s).value;
    RoundTrip(v.params.memory, v.params.iterations, v.params.parallelism, v.salt, v.hash);
  }

  /** Two settings with the same text are the same setting. */
  lemma {:induction false} EncodeInjective(
      m: uint32, t: uint32, p: uint8, salt: seq<byte>, hash: seq<byte>,
      m': uint32, t': uint32, p': uint8, salt': seq<byte>, hash': seq<byte>)
    requires Encode(m, t, p, salt, hash) == Encode(m', t', p', salt', hash')
    ensures (m, t, p, salt, hash) == (m', t', p', salt', hash')
  {
    RoundTrip(m, t, p, salt, hash);
    RoundTrip(m', t', p', salt', hash');
  }

  /** Against a stored hash, a password passes exactly when it derives the same key as the original. */
  lemma {:induction false} VerifyIffSameKey(kdf: Kdf, stored: string, candidate: string, salt: seq<byte>)
    requires HonoursLength(kdf)
    ensures HashPassword(kdf, stored, Some(salt)).Ok?
    ensures VerifyPassword(kdf, candidate, HashPassword(kdf, stored, Some(salt)).value) ==
            Ok(kdf(stored, salt, 3, 65536, 4, 32) == kdf(candidate, salt, 3, 65536, 4, 32))
  {
    var key := kdf(stored, salt, 3, 65536, 4, 32);
    RoundTrip(65536, 3, 4, salt, key);
    assert |key| == 32;
  }

  /** The password that was hashed always passes. */
  lemma {:induction false} VerifyHashed(kdf: Kdf, password: string, salt: seq<byte>)
    requires HonoursLength(kdf)
    ensures VerifyPassword(kdf, password, HashPassword(kdf, password, Some(salt)).value) == Ok(true)
  {
    VerifyIffSameKey(kdf, password, password, salt);
  }

  /** What a stored hash looks like; without salt there is none. */
  lemma {:induction false} HashText(kdf: Kdf, password: string, salt: seq<byte>)
    ensures var key := kdf(password, salt, 3, 65536, 4, 32);
            HashPassword(kdf, password, Some(salt)) ==
            Ok("$argon2id$v=19$m=65536,t=3,p=4$" + Base64.Encode(salt) + "$" + Base64.Encode(key))
    ensures HashPassword(kdf, password, None) == Err(NoSalt)
  {
    Version19();
    Decimal65536();
    assert Decimal(3) == "3" && Decimal(4) == "4";
    assert "$argon2id$v=" + "19" + "$" + ParamsText("65536", "3", "4") + "$" == "$argon2id$v=19$m=65536,t=3,p=4$";
  }

  lemma {:induction false} Decimal65536()
    ensures Decimal(65536) == "65536"
  {
    assert Decimal(6) == "6";
    assert Decimal(65) == "65";
    assert Decimal(655) == "655";
    assert Decimal(6553) == "6553";
  }

  /** One sign may stand before the version. */
  lemma {:induction false} SignedVersion(d: string)
    requires AllDigits(d) && Numeral(d) < 0x8000_0000_0000_0000
    ensures ScanVersion("v=+" + d) == Some(Numeral(d)) && ScanVersion("v=-" + d) == Some(0 - Numeral(d))
  {
    assert ("v=+" + d)[2..] == "+" + d && ("v=-" + d)[2..] == "-" + d;
    assert ("+" + d)[1..] == d && ("-" + d)[1..] == d;
    assert d + [] == d;
    ScanDigitsText(d, []);
  }

  // ----- what is accepted and what is refused -----

  /** Six parts, version 19, three numbers, and two base64 strings; each failure has its own error, and
      the first one met is reported. */
  lemma {:induction false} ParseErrorIff(s: string)
    ensures var parts, r := Split(s, '$'), Parse(s);
            && (r == Err(InvalidFormat) <==> |parts| != 6)
            && (|parts| == 6 ==>
                  && (r == Err(BadVersion) <==> ScanVersion(parts[2]).None?)
                  && (forall v: int :: r == Err(IncompatibleVersion(v)) <==> ScanVersion(parts[2]) == Some(v) && v != 19)
                  && (r == Err(BadParams) <==> ScanVersion(parts[2]) == Some(19) && ScanParams(parts[3]).None?)
                  && (r == Err(BadSalt) <==> ScanVersion(parts[2]) == Some(19) && ScanParams(parts[3]).Some?
                                             && Decode(parts[4]).None?)
                  && (r == Err(BadHash) <==> ScanVersion(parts[2]) == Some(19) && ScanParams(parts[3]).Some?
                                             && Decode(parts[4]).Some? && Decode(parts[5]).None?))
  {
  }

  /** Verification fails exactly on the strings that do not parse, with the parser's error. */
  lemma {:induction false} VerifyFailsIff(kdf: Kdf, password: string, s: string)
    ensures VerifyPassword(kdf, password, s).Err? <==> Parse(s).Err?
    ensures Parse(s).Err? ==> VerifyPassword(kdf, password, s).error == Parse(s).error
  {
  }

  /** It derives a key of the stored length with the stored settings and compares. */
  lemma {:induction false} VerifyUsesStored(
      kdf: Kdf, password: string, m: uint32, t: uint32, p: uint8, salt: seq<byte>, hash: seq<byte>)
    ensures VerifyPassword(kdf, password, Encode(m, t, p, salt, hash)) ==
            Ok(hash == kdf(password, salt, t, m, p, |hash| % 0x1_0000_0000))
  {
    RoundTrip(m, t, p, salt, hash);
  }

  predicate Blank(s: string) {
    forall i :: 0 <= i < |s| ==> IsSpace(s[i]) && s[i] != '\n'
  }

  /** White space before a number is skipped, a newline in it is refused. */
  lemma {:induction false} BlanksSkipped(blank: string, rest: string)
    requires Blank(blank)
    ensures SkipSpace(blank + rest) == SkipSpace(rest)
    ensures rest != [] && rest[0] == '\n' ==> SkipSpace(blank + rest) == None
    ensures rest != [] && !IsSpace(rest[0]) ==> SkipSpace(blank + rest) == Some(rest)
  {
    if blank == [] {
      assert blank + rest == rest;
    } else {
      assert (blank + rest)[1..] == blank[1..] + rest;
      BlanksSkipped(blank[1..], rest);
    }
  }

  // ----- which accepted strings are their own encoding -----

  predicate PlainField(name: string, s: string) {
    name <= s && Plain(s[|name|..])
  }

  predicate PlainParams(s: string) {
    var fields := Split(s, ',');
    |fields| == 3 && PlainField("m=", fields[0]) && PlainField("t=", fields[1]) && PlainField("p=", fields[2])
  }

  predicate PlainBase64(s: string) {
    '\r' !in s && '\n' !in s && CleanTail(s)
  }

  predicate CanonicalParts(parts: seq<string>) {
    && |parts| == 6
    && parts[0] == "" && parts[1] == "argon2id" && parts[2] == "v=19"
    && PlainParams(parts[3]) && PlainBase64(parts[4]) && PlainBase64(parts[5])
  }

  /** What a canonical string looks like, part by part. */
  predicate Canonical(s: string) {
    CanonicalParts(Split(s, '$'))
  }

  lemma {:induction false} Version19()
    ensures Decimal(ARGON2_VERSION) == "19"
  {
  }

  lemma {:induction false} SplitParams(m: string, t: string, p: string)
    requires AllDigits(m) && AllDigits(t) && AllDigits(p)
    ensures Split(ParamsText(m, t, p), ',') == ["m=" + m, "t=" + t, "p=" + p]
  {
    var fields := ["m=" + m, "t=" + t, "p=" + p];
    DigitsHold(m, ',');
    DigitsHold(t, ',');
    DigitsHold(p, ',');
    JoinThree(fields);
    assert ParamsText(m, t, p) == fields[0] + "," + fields[1] + "," + fields[2];
    SplitJoin(fields, ',');
  }

  lemma {:induction false} JoinThree(fields: seq<string>)
    requires |fields| == 3
    ensures Join(fields, ',') == fields[0] + "," + fields[1] + "," + fields[2]
  {
    assert fields[1..][1..] == fields[2..];
    assert Join(fields[2..], ',') == fields[2];
    assert Join(fields[1..], ',') == fields[1] + "," + fields[2];
  }

  lemma {:induction false} PrintedParamsPlain(m: nat, t: nat, p: nat)
    ensures PlainParams(ParamsText(Decimal(m), Decimal(t), Decimal(p)))
  {
    SplitParams(Decimal(m), Decimal(t), Decimal(p));
    DecimalIsPlain(m);
    DecimalIsPlain(t);
    DecimalIsPlain(p);
    assert ("m=" + Decimal(m))[2..] == Decimal(m);
    assert ("t=" + Decimal(t))[2..] == Decimal(t);
    assert ("p=" + Decimal(p))[2..] == Decimal(p);
  }

  lemma {:induction false} PlainParamsText(s: string) returns (m: string, t: string, p: string)
    requires PlainParams(s)
    ensures Plain(m) && Plain(t) && Plain(p)
    ensures s == ParamsText(m, t, p)
  {
    var fields := Split(s, ',');
    m, t, p := fields[0][2..], fields[1][2..], fields[2][2..];
    JoinSplit(s, ',');
    JoinThree(fields);
    assert fields[0] == "m=" + m;
    assert fields[1] == "t=" + t;
    assert fields[2] == "p=" + p;
  }

  lemma {:induction false} PlainParamsPrinted(s: string)
    requires PlainParams(s) && ScanParams(s).Some?
    ensures var (m, t, p) := ScanParams(s).value; s == ParamsText(Decimal(m), Decimal(t), Decimal(p))
  {
    var m, t, p := PlainParamsText(s);
    ScanParamsText(m, t, p);
    DecimalOfNumeral(m);
    DecimalOfNumeral(t);
    DecimalOfNumeral(p);
  }

  lemma {:induction false} EncodedIsPlain(b: seq<byte>)
    ensures PlainBase64(Base64.Encode(b))
  {
    DecodeEncode(b);
    EncodeDecodeIff(Base64.Encode(b));
  }

  lemma {:induction false} PlainIsEncoded(s: string)
    requires PlainBase64(s) && Decode(s).Some?
    ensures Base64.Encode(Decode(s).value) == s
  {
    EncodeDecodeIff(s);
  }

  lemma {:induction false} PartsCanonical(m: uint32, t: uint32, p: uint8, salt: seq<byte>, hash: seq<byte>)
    ensures Canonical(Encode(m, t, p, salt, hash))
  {
    Version19();
    SplitEncode(m, t, p, salt, hash);
    PrintedParamsPlain(m, t, p);
    EncodedIsPlain(salt);
    EncodedIsPlain(hash);
  }

  lemma {:induction false} CanonicalPartsPrinted(parts: seq<string>, v: Parsed)
    requires CanonicalParts(parts) && ReadsAs(parts, v)
    ensures parts == Parts(v.params.memory, v.params.iterations, v.params.parallelism, v.salt, v.hash)
  {
    PlainParamsPrinted(parts[3]);
    PlainIsEncoded(parts[4]);
    PlainIsEncoded(parts[5]);
    SixParts(parts);
  }

  lemma {:induction false} SixParts(parts: seq<string>)
    requires |parts| == 6
    requires parts[0] == "" && parts[1] == "argon2id" && parts[2] == "v=19"
    ensures parts == ["", "argon2id", "v=" + Decimal(ARGON2_VERSION), parts[3], parts[4], parts[5]]
  {
    Version19();
    assert parts[2] == "v=" + Decimal(ARGON2_VERSION);
  }

  /** Of the accepted strings, re-encoding gives back exactly the canonical ones. */
  lemma {:induction false} ReencodeIffCanonical(s: string)
    requires Parse(s).Ok?
    ensures Reencode(Parse(s).value) == s <==> Canonical(s)
  {
    var v := Parse(s).value;
    var m, t, p := v.params.memory, v.params.iterations, v.params.parallelism;
    PartsCanonical(m, t, p, v.salt, v.hash);
    if Canonical(s) {
      ParseReads(s, v);
      CanonicalPartsPrinted(Split(s, '$'), v);
      JoinSplit(s, '$');
      EncodeJoinsParts(m, t, p, v.salt, v.hash);
    }
  }
}
