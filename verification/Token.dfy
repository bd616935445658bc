/**
 Structured tokens `<prefix>_<public id>.<secret>` (src/token.rs) over unpadded
 base64url (section 5 of RFC 4648, strict about trailing bits as in section 3.5).
 */
module Token {
  import opened Wrappers

  newtype Byte = n: int | 0 <= n < 256

  // ---- base64url ----

  /** Value of a base64url character, 64 for any other. */
  function Sextet(c: char): (v: int)
    ensures 0 <= v <= 64
  {
    if 'A' <= c <= 'Z' then c as int - 'A' as int
    else if 'a' <= c <= 'z' then c as int - 'a' as int + 26
    else if '0' <= c <= '9' then c as int - '0' as int + 52
    else if c == '-' then 62
    else if c == '_' then 63
    else 64
  }

  function Digit(v: int): (c: char)
    requires 0 <= v < 64
    ensures Sextet(c) == v
  {
    if v < 26 then ('A' as int + v) as char
    else if v < 52 then ('a' as int + (v - 26)) as char
    else if v < 62 then ('0' as int + (v - 52)) as char
    else if v == 62 then '-'
    else '_'
  }

  lemma DigitOfSextet(c: char)
    requires Sextet(c) < 64
    ensures Digit(Sextet(c)) == c
  {
  }

  /** Four sextets, most significant first. */
  function Quad(a: int, b: int, c: int, d: int): int { ((a * 64 + b) * 64 + c) * 64 + d }

  /** Three bytes, most significant first. */
  function Triple(a: int, b: int, c: int): int { (a * 256 + b) * 256 + c }

  lemma QuadParts(a: int, b: int, c: int, d: int)
    requires 0 <= a < 64 && 0 <= b < 64 && 0 <= c < 64 && 0 <= d < 64
    ensures var n := Quad(a, b, c, d);
      0 <= n < 0x100_0000 && n / 64 / 64 / 64 == a && n / 64 / 64 % 64 == b && n / 64 % 64 == c && n % 64 == d
  {
    var ab := a * 64 + b;
    var abc := ab * 64 + c;
    assert (abc * 64 + d) / 64 == abc;
    assert (ab * 64 + c) / 64 == ab;
  }

  lemma QuadWhole(n: int)
    requires 0 <= n < 0x100_0000
    ensures n / 64 / 64 / 64 < 64 && Quad(n / 64 / 64 / 64, n / 64 / 64 % 64, n / 64 % 64, n % 64) == n
  {
  }

  lemma TripleParts(a: int, b: int, c: int)
    requires 0 <= a < 256 && 0 <= b < 256 && 0 <= c < 256
    ensures var n := Triple(a, b, c);
      0 <= n < 0x100_0000 && n / 256 / 256 == a && n / 256 % 256 == b && n % 256 == c
  {
    var ab := a * 256 + b;
    assert (ab * 256 + c) / 256 == ab;
  }

  lemma TripleWhole(n: int)
    requires 0 <= n < 0x100_0000
    ensures n / 256 / 256 < 256 && Triple(n / 256 / 256, n / 256 % 256, n % 256) == n
  {
  }

  function Digits(n: int): (s: string)
    requires 0 <= n < 0x100_0000
    ensures |s| == 4
  {
    QuadWhole(n);
    [Digit(n / 64 / 64 / 64), Digit(n / 64 / 64 % 64), Digit(n / 64 % 64), Digit(n % 64)]
  }

  function Bytes(n: int): (bs: seq<Byte>)
    requires 0 <= n < 0x100_0000
    ensures |bs| == 3
  {
    TripleWhole(n);
    [(n / 256 / 256) as Byte, (n / 256 % 256) as Byte, (n % 256) as Byte]
  }

  function OfBytes(a: Byte, b: Byte, c: Byte): (n: int)
    ensures 0 <= n < 0x100_0000
  {
    TripleParts(a as int, b as int, c as int);
    Triple(a as int, b as int, c as int)
  }

  predicate AllDigits(s: string) { forall i | 0 <= i < |s| :: Sextet(s[i]) < 64 }

  function OfDigits(s: string): (n: int)
    requires |s| == 4 && AllDigits(s)
    ensures 0 <= n < 0x100_0000
  {
    QuadParts(Sextet(s[0]), Sextet(s[1]), Sextet(s[2]), Sextet(s[3]));
    Quad(Sextet(s[0]), Sextet(s[1]), Sextet(s[2]), Sextet(s[3]))
  }

  lemma DigitsBack(n: int)
    requires 0 <= n < 0x100_0000
    ensures AllDigits(Digits(n)) && OfDigits(Digits(n)) == n
  {
    QuadWhole(n);
  }

  lemma OfDigitsBack(s: string)
    requires |s| == 4 && AllDigits(s)
    ensures Digits(OfDigits(s)) == s
  {
    QuadParts(Sextet(s[0]), Sextet(s[1]), Sextet(s[2]), Sextet(s[3]));
    DigitOfSextet(s[0]);
    DigitOfSextet(s[1]);
    DigitOfSextet(s[2]);
    DigitOfSextet(s[3]);
  }

  lemma BytesBack(n: int)
    requires 0 <= n < 0x100_0000
    ensures OfBytes(Bytes(n)[0], Bytes(n)[1], Bytes(n)[2]) == n
  {
    TripleWhole(n);
  }

  lemma OfBytesBack(a: Byte, b: Byte, c: Byte)
    ensures Bytes(OfBytes(a, b, c)) == [a, b, c]
  {
    TripleParts(a as int, b as int, c as int);
  }

  // ---- encoder and decoder ----

  function Encode(bytes: seq<Byte>): string
  {
    if |bytes| == 0 then []
    else if |bytes| == 1 then Digits(OfBytes(bytes[0], 0, 0))[..2]
    else if |bytes| == 2 then Digits(OfBytes(bytes[0], bytes[1], 0))[..3]
    else Digits(OfBytes(bytes[0], bytes[1], bytes[2])) + Encode(bytes[3..])
  }

  /** Fails on a foreign character, on a lone last character and on non-zero trailing bits. */
  function Decode(s: string): Option<seq<Byte>>
  {
    if !AllDigits(s) || |s| == 1 then None
    else if |s| == 0 then Some([])
    else if |s| == 2 then
      if OfDigits(s + "AA") % 0x1_0000 == 0 then Some(Bytes(OfDigits(s + "AA"))[..1]) else None
    else if |s| == 3 then
      if OfDigits(s + "A") % 0x100 == 0 then Some(Bytes(OfDigits(s + "A"))[..2]) else None
    else
      var rest := Decode(s[4..]);
      if rest.None? then None else Some(Bytes(OfDigits(s[..4])) + rest.value)
  }

  function EncodedLength(n: nat): nat { n / 3 * 4 + if n % 3 == 0 then 0 else n % 3 + 1 }

  lemma LengthStep(n: nat)
    ensures EncodedLength(0) == 0 && EncodedLength(1) == 2 && EncodedLength(2) == 3
    ensures EncodedLength(n + 3) == EncodedLength(n) + 4
  {
  }

  lemma DigitZero()
    ensures Digit(0) == 'A' && Sextet('A') == 0
  {
  }

  /** A last group of one or two bytes leaves zero bits in its last sextets. */
  lemma ShortGroup(a: Byte, b: Byte)
    ensures OfBytes(a, 0, 0) % 64 == 0 && OfBytes(a, 0, 0) / 64 % 64 == 0 && OfBytes(a, 0, 0) % 0x1_0000 == 0
    ensures OfBytes(a, b, 0) % 64 == 0 && OfBytes(a, b, 0) % 0x100 == 0
  {
    assert OfBytes(a, 0, 0) == 64 * (64 * (16 * a as int));
    assert OfBytes(a, b, 0) == 64 * (4 * (256 * a as int + b as int));
  }

  lemma WholeBytes(k: int)
    ensures 256 * (256 * k) % 256 == 0 && 256 * (256 * k) / 256 % 256 == 0
  {
    assert 256 * (256 * k) / 256 == 256 * k;
  }

  lemma ShortBytes(n: int)
    requires 0 <= n < 0x100_0000
    ensures n % 0x1_0000 == 0 ==> Bytes(n) == [Bytes(n)[0], 0, 0]
    ensures n % 0x100 == 0 ==> Bytes(n) == [Bytes(n)[0], Bytes(n)[1], 0]
  {
    assert Bytes(n)[2] as int == n % 256;
    if n % 0x1_0000 == 0 {
      WholeBytes(n / 0x1_0000);
      assert n == 256 * (256 * (n / 0x1_0000));
    }
  }

  lemma EncodeOne(a: Byte)
    ensures Decode(Encode([a])) == Some([a]) && |Encode([a])| == 2 && AllDigits(Encode([a]))
  {
    hide Digit, Sextet, OfBytes, OfDigits, Bytes;
    var n, e := OfBytes(a, 0, 0), Encode([a]);
    OfBytesBack(a, 0, 0);
    DigitsBack(n);
    ShortGroup(a, 0);
    DigitZero();
    assert e + "AA" == Digits(n) && AllDigits(e);
    assert [a, 0, 0][..1] == [a];
  }

  lemma EncodeTwo(a: Byte, b: Byte)
    ensures Decode(Encode([a, b])) == Some([a, b]) && |Encode([a, b])| == 3 && AllDigits(Encode([a, b]))
  {
    hide Digit, Sextet, OfBytes, OfDigits, Bytes;
    var n, e := OfBytes(a, b, 0), Encode([a, b]);
    OfBytesBack(a, b, 0);
    DigitsBack(n);
    ShortGroup(a, b);
    DigitZero();
    assert e + "A" == Digits(n) && AllDigits(e);
    assert [a, b, 0][..2] == [a, b];
  }

  /** Decoding undoes encoding, and the length is fixed by the number of bytes. */
  lemma {:induction false} DecodeEncode(bytes: seq<Byte>)
    ensures Decode(Encode(bytes)) == Some(bytes)
    ensures AllDigits(Encode(bytes)) && |Encode(bytes)| == EncodedLength(|bytes|)
  {
    hide Digits, Bytes, OfBytes, OfDigits, Sextet, EncodedLength;
    LengthStep(if |bytes| >= 3 then |bytes| - 3 else 0);
    if |bytes| == 1 {
      assert bytes == [bytes[0]];
      EncodeOne(bytes[0]);
    } else if |bytes| == 2 {
      assert bytes == [bytes[0], bytes[1]];
      EncodeTwo(bytes[0], bytes[1]);
    } else if |bytes| >= 3 {
      var n := OfBytes(bytes[0], bytes[1], bytes[2]);
      OfBytesBack(bytes[0], bytes[1], bytes[2]);
      DigitsBack(n);
      DecodeEncode(bytes[3..]);
      assert Encode(bytes)[..4] == Digits(n) && Encode(bytes)[4..] == Encode(bytes[3..]);
      assert bytes == [bytes[0], bytes[1], bytes[2]] + bytes[3..];
    }
  }

  lemma DecodeTwo(s: string)
    requires |s| == 2 && Decode(s).Some?
    ensures |Decode(s).value| == 1 && Encode(Decode(s).value) == s
  {
    DigitZero();
    hide Digits, Sextet, OfBytes, OfDigits, Bytes;
    var n := OfDigits(s + "AA");
    BytesBack(n);
    OfDigitsBack(s + "AA");
    ShortBytes(n);
    assert Digits(n)[..2] == s;
  }

  lemma DecodeThree(s: string)
    requires |s| == 3 && Decode(s).Some?
    ensures |Decode(s).value| == 2 && Encode(Decode(s).value) == s
  {
    DigitZero();
    hide Digits, Sextet, OfBytes, OfDigits, Bytes;
    var n := OfDigits(s + "A");
    BytesBack(n);
    OfDigitsBack(s + "A");
    ShortBytes(n);
    assert Digits(n)[..3] == s;
  }

  /** Encoding undoes decoding: every accepted text is the one canonical encoding. */
  lemma {:induction false} EncodeDecode(s: string)
    requires Decode(s).Some?
    ensures Encode(Decode(s).value) == s && |s| == EncodedLength(|Decode(s).value|)
  {
    hide Digits, Bytes, OfBytes, OfDigits, Sextet, EncodedLength;
    LengthStep(if |s| >= 4 && Decode(s[4..]).Some? then |Decode(s[4..]).value| else 0);
    if |s| == 2 {
      DecodeTwo(s);
    } else if |s| == 3 {
      DecodeThree(s);
    } else if |s| >= 4 {
      var n, rest := OfDigits(s[..4]), Decode(s[4..]).value;
      OfDigitsBack(s[..4]);
      BytesBack(n);
      EncodeDecode(s[4..]);
      assert Decode(s).value == Bytes(n) + rest && (Bytes(n) + rest)[3..] == rest;
      assert s == s[..4] + s[4..];
    }
  }

  // ---- tokens ----

  datatype Namespace = Agent | Operator | Bootstrap

  datatype StructuredToken = StructuredToken(namespace: Namespace, publicId: string, secret: string)

  datatype ParseError = UnknownNamespace | MissingSeparator | InvalidLength | InvalidEncoding

  function Prefix(n: Namespace): string
  {
    match n case Agent => "lk" case Operator => "lkop" case Bootstrap => "lkbt"
  }

  function FromPrefix(s: string): (n: Option<Namespace>)
    ensures n.Some? ==> Prefix(n.value) == s
  {
    if s == "lk" then Some(Agent) else if s == "lkop" then Some(Operator) else if s == "lkbt" then Some(Bootstrap)
    else None
  }

  const ID_BYTES := 16
  const SECRET_BYTES := 32
  const PUBLIC_ID_LEN := 22
  const SECRET_LEN := 43

  function Generate(n: Namespace, id: seq<Byte>, secret: seq<Byte>): StructuredToken
  {
    StructuredToken(n, Encode(id), Encode(secret))
  }

  function WireFormat(t: StructuredToken): string
  {
    Prefix(t.namespace) + "_" + t.publicId + "." + t.secret
  }

  /** `split_once`: around the first occurrence. */
  function SplitOnce(s: string, c: char): (r: Option<(string, string)>)
    ensures r.None? <==> c !in s
    ensures r.Some? ==> s == r.value.0 + [c] + r.value.1 && c !in r.value.0
  {
    if s == [] then None
    else if s[0] == c then Some(([], s[1..]))
    else
      var r := SplitOnce(s[1..], c);
      if r.None? then None else Some(([s[0]] + r.value.0, r.value.1))
  }

  lemma SplitOnceUnique(a: string, b: string, c: char)
    requires c !in a
    ensures SplitOnce(a + [c] + b, c) == Some((a, b))
  {
    var s := a + [c] + b;
    assert s[|a|] == c;
    var (x, y) := SplitOnce(s, c).value;
    assert s[|x|] == c;
    assert s[..|a|] == a && s[..|x|] == x && s[|a| + 1..] == b && s[|x| + 1..] == y;
  }

  /** Length in UTF-8 bytes, which is what `str::len` counts. */
  function Utf8Len(s: string): nat
  {
    if s == [] then 0
    else
      var n := s[0] as int;
      (if n < 0x80 then 1 else if n < 0x800 then 2 else if n < 0x1_0000 then 3 else 4) + Utf8Len(s[1..])
  }

  lemma {:induction false} Utf8LenOfDigits(s: string)
    requires AllDigits(s)
    ensures Utf8Len(s) == |s|
  {
    if s != [] {
      assert Sextet(s[0]) < 64;
      Utf8LenOfDigits(s[1..]);
    }
  }

  function Parse(input: string): Result<StructuredToken, ParseError>
  {
    var outer := SplitOnce(input, '_');
    if outer.None? then Err(UnknownNamespace)
    else
      var n := FromPrefix(outer.value.0);
      if n.None? then Err(UnknownNamespace)
      else
        var inner := SplitOnce(outer.value.1, '.');
        if inner.None? then Err(MissingSeparator)
        else if Utf8Len(inner.value.0) != PUBLIC_ID_LEN || Utf8Len(inner.value.1) != SECRET_LEN then Err(InvalidLength)
        else if Decode(inner.value.0).None? || Decode(inner.value.1).None? then Err(InvalidEncoding)
        else Ok(StructuredToken(n.value, inner.value.0, inner.value.1))
  }

  lemma DigitsHaveNoDot(s: string)
    requires AllDigits(s)
    ensures '.' !in s
  {
    assert Sextet('.') == 64;
  }

  lemma PrefixSplits(n: Namespace, rest: string)
    ensures SplitOnce(Prefix(n) + "_" + rest, '_') == Some((Prefix(n), rest)) && FromPrefix(Prefix(n)) == Some(n)
  {
    SplitOnceUnique(Prefix(n), rest, '_');
  }

  /** A generated token parses back to its parts, although ids may contain `_`. */
  lemma ParseOfWire(n: Namespace, id: seq<Byte>, secret: seq<Byte>)
    requires |id| == ID_BYTES && |secret| == SECRET_BYTES
    ensures var t := Generate(n, id, secret);
      |t.publicId| == PUBLIC_ID_LEN && |t.secret| == SECRET_LEN && Parse(WireFormat(t)) == Ok(t)
  {
    var t := Generate(n, id, secret);
    DecodeEncode(id);
    DecodeEncode(secret);
    hide Encode, Decode, SplitOnce, Utf8Len, FromPrefix, Prefix, AllDigits;
    Utf8LenOfDigits(t.publicId);
    Utf8LenOfDigits(t.secret);
    DigitsHaveNoDot(t.publicId);
    var rest := t.publicId + "." + t.secret;
    assert WireFormat(t) == Prefix(n) + "_" + rest;
    PrefixSplits(n, rest);
    SplitOnceUnique(t.publicId, t.secret, '.');
  }

  /** Every accepted string is the wire form of what it parsed to, and that is a token
      the generator can produce. */
  lemma WireOfParse(input: string) returns (id: seq<Byte>, secret: seq<Byte>)
    requires Parse(input).Ok?
    ensures |id| == ID_BYTES && |secret| == SECRET_BYTES
    ensures Parse(input).value == Generate(Parse(input).value.namespace, id, secret)
    ensures WireFormat(Parse(input).value) == input
  {
    hide FromPrefix, Prefix, Encode, Decode, SplitOnce, Utf8Len, AllDigits;
    var t := Parse(input).value;
    var outer := SplitOnce(input, '_').value;
    id := CanonicalPart(t.publicId);
    secret := CanonicalPart(t.secret);
    LengthsInvert(|id|, |secret|);
    assert outer.1 == t.publicId + "." + t.secret;
    assert WireFormat(t) == Prefix(t.namespace) + "_" + outer.1;
  }

  lemma CanonicalPart(part: string) returns (bytes: seq<Byte>)
    requires Decode(part).Some?
    ensures part == Encode(bytes) && Utf8Len(part) == EncodedLength(|bytes|)
  {
    bytes := Decode(part).value;
    EncodeDecode(part);
    DecodeEncode(bytes);
    Utf8LenOfDigits(part);
  }

  lemma LengthsInvert(n: nat, m: nat)
    ensures EncodedLength(n) == PUBLIC_ID_LEN <==> n == ID_BYTES
    ensures EncodedLength(m) == SECRET_LEN <==> m == SECRET_BYTES
  {
  }

  /** `parse` accepts exactly the wire forms of the tokens that can be generated. */
  lemma ParseAcceptsExactly(input: string)
    ensures Parse(input).Ok? <==>
      exists n, id, secret | |id| == ID_BYTES && |secret| == SECRET_BYTES ::
        input == WireFormat(Generate(n, id, secret))
  {
    hide Parse, WireFormat, Generate;
    if Parse(input).Ok? {
      var id, secret := WireOfParse(input);
      assert input == WireFormat(Generate(Parse(input).value.namespace, id, secret));
    }
    forall n, id, secret | |id| == ID_BYTES && |secret| == SECRET_BYTES && input == WireFormat(Generate(n, id, secret))
      ensures Parse(input).Ok?
    {
      ParseOfWire(n, id, secret);
    }
  }
}
