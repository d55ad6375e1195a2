/** Base64 (section 4 of RFC 4648), and cutting a message into relay-sized parts
    (splitPayload and joinPayload in src/sync/chunk.ts). */
module Base64 {
  import opened Primitives

  type byte = x: int | 0 <= x < 256

  const MAX_PARTS: nat := 1024

  // ---------- the alphabet ----------

  function Digit(n: nat): char
    requires n < 64
  {
    if n < 26 then ('A' as int + n) as char
    else if n < 52 then ('a' as int + (n - 26)) as char
    else if n < 62 then ('0' as int + (n - 52)) as char
    else if n == 62 then '+' else '/'
  }

  function Value(c: char): (n: nat)
    ensures n < 64
  {
    if 'A' <= c <= 'Z' then c as int - 'A' as int
    else if 'a' <= c <= 'z' then c as int - 'a' as int + 26
    else if '0' <= c <= '9' then c as int - '0' as int + 52
    else if c == '+' then 62 else if c == '/' then 63 else 0
  }

  lemma DigitValue(n: nat)
    requires n < 64
    ensures Value(Digit(n)) == n && Digit(n) != '='
  {
  }

  // ---------- three bytes to four characters ----------

  function Encode3(a: byte, b: byte, c: byte): string {
    [Digit(a / 4), Digit(a % 4 * 16 + b / 16), Digit(b % 16 * 4 + c / 64), Digit(c % 64)]
  }

  function Encode(bs: seq<byte>): string
    decreases |bs|
  {
    if |bs| == 0 then ""
    else if |bs| == 1 then [Digit(bs[0] / 4), Digit(bs[0] % 4 * 16), '=', '=']
    else if |bs| == 2 then [Digit(bs[0] / 4), Digit(bs[0] % 4 * 16 + bs[1] / 16), Digit(bs[1] % 16 * 4), '=']
    else Encode3(bs[0], bs[1], bs[2]) + Encode(bs[3..])
  }

  function Decode3(p: nat, q: nat, r: nat, s: nat): seq<byte>
    requires p < 64 && q < 64 && r < 64 && s < 64
  {
    [p * 4 + q / 16, q % 16 * 16 + r / 4, r % 4 * 64 + s]
  }

  function Decode(cs: string): seq<byte>
    decreases |cs|
  {
    if |cs| < 4 then []
    else
      var bytes := Decode3(Value(cs[0]), Value(cs[1]), Value(cs[2]), Value(cs[3]));
      if cs[2] == '=' then bytes[..1]
      else if cs[3] == '=' then bytes[..2]
      else bytes + Decode(cs[4..])
  }

  lemma Group(a: byte, b: byte, c: byte)
    ensures Decode3(a / 4, a % 4 * 16 + b / 16, b % 16 * 4 + c / 64, c % 64) == [a, b, c]
  {
  }

  lemma LastOne(a: byte, cs: string)
    requires cs == [Digit(a / 4), Digit(a % 4 * 16), '=', '=']
    ensures Decode(cs) == [a]
  {
    Group(a, 0, 0);
    DigitValue(a / 4);
    DigitValue(a % 4 * 16);
  }

  lemma LastTwo(a: byte, b: byte, cs: string)
    requires cs == [Digit(a / 4), Digit(a % 4 * 16 + b / 16), Digit(b % 16 * 4), '=']
    ensures Decode(cs) == [a, b]
  {
    Group(a, b, 0);
    DigitValue(a / 4);
    DigitValue(a % 4 * 16 + b / 16);
    DigitValue(b % 16 * 4);
  }

  lemma {:induction false} RoundTrip(bs: seq<byte>)
    ensures Decode(Encode(bs)) == bs
    decreases |bs|
  {
    if |bs| <= 2 {
      ShortTrip(bs);
    } else {
      RoundTrip(bs[3..]);
      NextTrip(bs);
    }
  }

  lemma ShortTrip(bs: seq<byte>)
    requires |bs| <= 2
    ensures Decode(Encode(bs)) == bs
  {
    if |bs| == 1 {
      LastOne(bs[0], Encode(bs));
    } else if |bs| == 2 {
      LastTwo(bs[0], bs[1], Encode(bs));
    }
  }

  lemma NextTrip(bs: seq<byte>)
    requires |bs| > 2 && Decode(Encode(bs[3..])) == bs[3..]
    ensures Decode(Encode(bs)) == bs
  {
    Triple(bs[0], bs[1], bs[2], Encode(bs[3..]));
  }

  lemma Triple(a: byte, b: byte, c: byte, rest: string)
    ensures Decode(Encode3(a, b, c) + rest) == [a, b, c] + Decode(rest)
  {
    Group(a, b, c);
    DigitValue(a / 4);
    DigitValue(a % 4 * 16 + b / 16);
    DigitValue(b % 16 * 4 + c / 64);
    DigitValue(c % 64);
    assert (Encode3(a, b, c) + rest)[4..] == rest;
  }

  predicate Ascii(c: char) {
    'A' <= c <= 'Z' || 'a' <= c <= 'z' || '0' <= c <= '9' || c == '+' || c == '/' || c == '='
  }

  /** Four characters for every three bytes or part of three, all of them safe to cut between. */
  lemma {:induction false} EncodeShape(bs: seq<byte>)
    ensures |Encode(bs)| == (|bs| + 2) / 3 * 4
    ensures forall i :: 0 <= i < |Encode(bs)| ==> Ascii(Encode(bs)[i])
    decreases |bs|
  {
    if |bs| >= 3 {
      EncodeShape(bs[3..]);
      var rest := Encode(bs[3..]);
      assert Encode(bs) == Encode3(bs[0], bs[1], bs[2]) + rest;
      assert (|bs| + 2) / 3 == (|bs| - 3 + 2) / 3 + 1;
    }
  }

  // ---------- parts ----------

  function Join(parts: seq<string>): string
    decreases |parts|
  {
    if |parts| == 0 then "" else Join(parts[..|parts| - 1]) + parts[|parts| - 1]
  }

  /** A message that fits as it is, one that is refused, or its parts. */
  datatype Split = Whole | TooLarge | Parts(parts: seq<string>)

  /** `utf8` stands for the encoding of text as bytes. */
  method SplitPayload(text: string, maxContent: nat, utf8: string -> seq<byte>) returns (r: Split)
    ensures |text| <= maxContent ==> r == Whole
    ensures r.Parts? ==>
              && Join(r.parts) == Encode(utf8(text)) && |r.parts| <= MAX_PARTS
              && forall i :: 0 <= i < |r.parts| ==> 0 < |r.parts[i]| <= maxContent
    ensures |text| > maxContent ==>
              (r.Parts? <==> maxContent > 0 && CeilDiv(|Encode(utf8(text))|, maxContent) <= MAX_PARTS)
    ensures r.Parts? ==> |r.parts| == CeilDiv(|Encode(utf8(text))|, maxContent)
  {
    if |text| <= maxContent { return Whole; }
    var b64 := Encode(utf8(text));
    if maxContent == 0 || CeilDiv(|b64|, maxContent) > MAX_PARTS { return TooLarge; }
    var parts: seq<string> := [];
    var i := 0;
    CutsIsCeil(|b64|, maxContent);
    while i < |b64|
      invariant i <= |b64| && Join(parts) == b64[..i]
      invariant forall k :: 0 <= k < |parts| ==> 0 < |parts[k]| <= maxContent
      invariant |parts| + Cuts(|b64| - i, maxContent) == Cuts(|b64|, maxContent)
    {
      var next := if i + maxContent <= |b64| then i + maxContent else |b64|;
      ghost var before := parts;
      parts := parts + [b64[i..next]];
      assert parts[..|parts| - 1] == before;
      assert b64[..i] + b64[i..next] == b64[..next];
      i := next;
    }
    assert b64[..i] == b64;
    r := Parts(parts);
  }

  /** How many parts the cutting makes. */
  function Cuts(n: nat, d: pos): nat
    decreases n
  {
    if n == 0 then 0 else if n <= d then 1 else 1 + Cuts(n - d, d)
  }

  lemma {:induction false} CutsIsCeil(n: nat, d: pos)
    ensures Cuts(n, d) == CeilDiv(n, d)
    decreases n
  {
    if n == 0 {
      DivIs(d - 1, d, 0);
    } else if n <= d {
      DivIs(n + d - 1, d, 1);
    } else {
      CutsIsCeil(n - d, d);
      DivNext(n - 1, d);
    }
  }

  /** Joining what was split gives the text back. `utf8` and `text8` are the two directions of the
      encoding, which agree on well-formed text. */
  lemma SplitJoin(text: string, parts: seq<string>, utf8: string -> seq<byte>, text8: seq<byte> -> string)
    requires Join(parts) == Encode(utf8(text)) && text8(utf8(text)) == text
    ensures text8(Decode(Join(parts))) == text
  {
    RoundTrip(utf8(text));
  }
}
