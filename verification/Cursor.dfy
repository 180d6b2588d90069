/**
  Opaque page cursors: JSON bytes in URL-safe base64 (section 5 of RFC 4648) with the padding stripped, and
  put back before decoding. The JSON text itself is a given encoding of the key into bytes.
 */
module Cursor {
  import opened Sequences

  type Byte = b: nat | b < 256

  function Letter(v: nat): (c: char)
    requires v < 64
    ensures c != '='
  {
    if v < 26 then 'A' + v as char
    else if v < 52 then 'a' + (v - 26) as char
    else if v < 62 then '0' + (v - 52) as char
    else if v == 62 then '-' else '_'
  }

  /** The decoder takes the standard alphabet as well as the URL-safe one. */
  function Value(c: char): (v: Option<nat>)
    ensures v.Some? ==> v.value < 64
  {
    if 'A' <= c <= 'Z' then Some((c - 'A') as nat)
    else if 'a' <= c <= 'z' then Some((c - 'a') as nat + 26)
    else if '0' <= c <= '9' then Some((c - '0') as nat + 52)
    else if c == '-' || c == '+' then Some(62)
    else if c == '_' || c == '/' then Some(63)
    else None
  }

  lemma ValueOfLetter(v: nat)
    requires v < 64
    ensures Value(Letter(v)) == Some(v)
  {
  }

  // --------------------------------------------------------------- encoding

  /** base64 with padding: every three bytes are four letters; one or two left over are padded to four. */
  function Encode(bs: seq<Byte>): (s: string)
    ensures |s| % 4 == 0
  {
    if bs == [] then ""
    else if |bs| == 1 then
      [Letter(bs[0] / 4), Letter(bs[0] % 4 * 16), '=', '=']
    else if |bs| == 2 then
      [Letter(bs[0] / 4), Letter(bs[0] % 4 * 16 + bs[1] / 16), Letter(bs[1] % 16 * 4), '=']
    else
      [Letter(bs[0] / 4), Letter(bs[0] % 4 * 16 + bs[1] / 16), Letter(bs[1] % 16 * 4 + bs[2] / 64), Letter(bs[2] % 64)]
      + Encode(bs[3..])
  }

  /** `rstrip("=")` */
  function Strip(s: string): string {
    if s != [] && Last(s) == '=' then Strip(s[..|s| - 1]) else s
  }

  /** `"=" * (-len(s) % 4)` appended */
  function Repad(s: string): string {
    s + seq((4 - |s| % 4) % 4, i => '=')
  }

  // --------------------------------------------------------------- decoding

  function Cons(b: Byte, rest: Option<seq<Byte>>): Option<seq<Byte>> {
    if rest.Some? then Some([b] + rest.value) else None
  }

  /**
    The library's decoder: `quad` letters of the current group have been read and `left` holds the bits not yet
    output; characters outside the alphabet are skipped; enough padding ends the data.
   */
  function DecodeFrom(s: string, quad: nat, left: nat, pads: nat): Option<seq<Byte>>
    requires quad < 4
    requires if quad == 0 then left == 0 else if quad == 1 then left < 64 else if quad == 2 then left < 16 else left < 4
  {
    if s == [] then
      if quad == 0 then Some([]) else None
    else if s[0] == '=' then
      if quad >= 2 && quad + pads + 1 >= 4 then Some([])
      else DecodeFrom(s[1..], quad, left, if quad >= 2 then pads + 1 else pads)
    else
      match Value(s[0])
      case None => DecodeFrom(s[1..], quad, left, pads)
      case Some(v) =>
        if quad == 0 then DecodeFrom(s[1..], 1, v, 0)
        else if quad == 1 then Cons(left * 4 + v / 16, DecodeFrom(s[1..], 2, v % 16, 0))
        else if quad == 2 then Cons(left * 16 + v / 4, DecodeFrom(s[1..], 3, v % 4, 0))
        else Cons(left * 64 + v, DecodeFrom(s[1..], 0, 0, 0))
  }

  function Decode(s: string): Option<seq<Byte>> {
    DecodeFrom(s, 0, 0, 0)
  }

  // ------------------------------------------------------------- round trip

  lemma DecodeTwo(v0: nat, v1: nat, rest: string)
    requires v0 < 64 && v1 < 64
    ensures Decode([Letter(v0), Letter(v1)] + rest) == Cons(v0 * 4 + v1 / 16, DecodeFrom(rest, 2, v1 % 16, 0))
  {
    ValueOfLetter(v0);
    ValueOfLetter(v1);
    var s := [Letter(v0), Letter(v1)] + rest;
    assert s[1..] == [Letter(v1)] + rest;
    assert s[1..][1..] == rest;
    assert Decode(s) == DecodeFrom(s[1..], 1, v0, 0);
  }

  lemma DecodeLetter(v: nat, rest: string, quad: nat, left: nat)
    requires v < 64 && 2 <= quad < 4 && left < (if quad == 2 then 16 else 4)
    ensures DecodeFrom([Letter(v)] + rest, quad, left, 0) ==
            if quad == 2 then Cons(left * 16 + v / 4, DecodeFrom(rest, 3, v % 4, 0))
            else Cons(left * 64 + v, Decode(rest))
  {
    ValueOfLetter(v);
    assert ([Letter(v)] + rest)[1..] == rest;
  }

  lemma SplitBytes(b0: Byte, b1: Byte, b2: Byte)
    ensures b0 / 4 < 64 && b0 % 4 * 16 + b1 / 16 < 64 && b1 % 16 * 4 + b2 / 64 < 64 && b2 % 64 < 64
    ensures b0 / 4 * 4 + (b0 % 4 * 16 + b1 / 16) / 16 == b0
    ensures (b0 % 4 * 16 + b1 / 16) % 16 * 16 + (b1 % 16 * 4 + b2 / 64) / 4 == b1
    ensures (b1 % 16 * 4 + b2 / 64) % 4 * 64 + b2 % 64 == b2
  {
    assert (b0 % 4 * 16 + b1 / 16) / 16 == b0 % 4 && (b0 % 4 * 16 + b1 / 16) % 16 == b1 / 16;
    assert (b1 % 16 * 4 + b2 / 64) / 4 == b1 % 16 && (b1 % 16 * 4 + b2 / 64) % 4 == b2 / 64;
  }

  lemma DecodeOneByte(b: Byte)
    ensures Decode(Encode([b])) == Some([b])
  {
    SplitBytes(b, 0, 0);
    assert Encode([b]) == [Letter(b / 4), Letter(b % 4 * 16)] + ['=', '='];
    assert ['=', '='][1..] == ['='];
    assert DecodeFrom(['=', '='], 2, 0, 0) == DecodeFrom(['='], 2, 0, 1) == Some([]);
    hide Letter, Value;
    DecodeTwo(b / 4, b % 4 * 16, ['=', '=']);
    assert b % 4 * 16 % 16 == 0 && b / 4 * 4 + b % 4 * 16 / 16 == b;
    assert [b] + [] == [b];
  }

  lemma DecodeTwoBytes(a: Byte, b: Byte)
    ensures Decode(Encode([a, b])) == Some([a, b])
  {
    SplitBytes(a, b, 0);
    hide Letter, Value;
    var v1, v2 := a % 4 * 16 + b / 16, b % 16 * 4;
    assert Encode([a, b]) == [Letter(a / 4), Letter(v1)] + ([Letter(v2)] + ['=']);
    DecodeTwo(a / 4, v1, [Letter(v2)] + ['=']);
    DecodeLetter(v2, ['='], 2, v1 % 16);
    assert [a, b] == [a] + ([b] + []);
  }

  lemma DecodeGroup(a: Byte, b: Byte, c: Byte, rest: string)
    ensures a / 4 < 64 && a % 4 * 16 + b / 16 < 64 && b % 16 * 4 + c / 64 < 64
    ensures Decode([Letter(a / 4), Letter(a % 4 * 16 + b / 16), Letter(b % 16 * 4 + c / 64), Letter(c % 64)] + rest)
            == Cons(a, Cons(b, Cons(c, Decode(rest))))
  {
    SplitBytes(a, b, c);
    hide Letter, Value, DecodeFrom;
    var v1, v2, v3 := a % 4 * 16 + b / 16, b % 16 * 4 + c / 64, c % 64;
    var s := [Letter(a / 4), Letter(v1), Letter(v2), Letter(v3)] + rest;
    assert s == [Letter(a / 4), Letter(v1)] + ([Letter(v2)] + ([Letter(v3)] + rest));
    DecodeTwo(a / 4, v1, [Letter(v2)] + ([Letter(v3)] + rest));
    DecodeLetter(v2, [Letter(v3)] + rest, 2, v1 % 16);
    DecodeLetter(v3, rest, 3, v2 % 4);
  }

  /** Decoding undoes encoding, for every byte string. */
  lemma {:induction false} DecodeEncode(bs: seq<Byte>)
    ensures Decode(Encode(bs)) == Some(bs)
  {
    if |bs| == 1 {
      DecodeOneByte(bs[0]);
      assert bs == [bs[0]];
    } else if |bs| == 2 {
      DecodeTwoBytes(bs[0], bs[1]);
      assert bs == [bs[0], bs[1]];
    } else if |bs| > 2 {
      DecodeEncode(bs[3..]);
      DecodeGroup(bs[0], bs[1], bs[2], Encode(bs[3..]));
      assert bs == [bs[0]] + ([bs[1]] + ([bs[2]] + bs[3..]));
    }
  }

  lemma {:induction false} StripThenRepad(s: string, front: string, pads: nat)
    requires s == front + seq(pads, i => '=') && pads < 4
    requires |s| % 4 == 0 && (front != [] ==> Last(front) != '=')
    ensures Strip(s) == front && Repad(Strip(s)) == s
  {
    StripPads(front, pads);
    assert (4 - |front| % 4) % 4 == pads;
  }

  lemma {:induction false} StripPads(front: string, pads: nat)
    requires front != [] ==> Last(front) != '='
    ensures Strip(front + seq(pads, i => '=')) == front
  {
    var s := front + seq(pads, i => '=');
    if pads == 0 {
      assert s == front;
    } else {
      assert s[..|s| - 1] == front + seq(pads - 1, i => '=');
      StripPads(front, pads - 1);
    }
  }

  /** Encoded text is letters and then fewer than four pads. */
  lemma {:induction false} EncodeShape(bs: seq<Byte>) returns (front: string, pads: nat)
    ensures Encode(bs) == front + seq(pads, i => '=') && pads < 4
    ensures forall n :: 0 <= n < |front| ==> front[n] != '='
    ensures front != [] ==> Last(front) != '='
    ensures bs != [] ==> front != []
  {
    if bs == [] {
      front, pads := [], 0;
    } else if |bs| == 1 {
      front, pads := Encode(bs)[..2], 2;
    } else if |bs| == 2 {
      front, pads := Encode(bs)[..3], 1;
    } else {
      var tail;
      tail, pads := EncodeShape(bs[3..]);
      front := Encode(bs)[..4] + tail;
      assert Encode(bs) == Encode(bs)[..4] + Encode(bs[3..]);
    }
  }

  /** Stripping the padding loses nothing: what goes out comes back, for every byte string. */
  lemma StrippedRoundTrip(bs: seq<Byte>)
    ensures Decode(Repad(Strip(Encode(bs)))) == Some(bs)
    ensures bs != [] ==> Strip(Encode(bs)) != ""
  {
    var front, pads := EncodeShape(bs);
    StripThenRepad(Encode(bs), front, pads);
    DecodeEncode(bs);
  }

  // ----------------------------------------------------------- the alphabet

  /** The test vectors of section 10 of RFC 4648. */
  lemma KnownEncodings()
    ensures Encode([]) == "" && Encode([102]) == "Zg==" && Encode([102, 111]) == "Zm8=" && Encode([102, 111, 111]) == "Zm9v"
  {
    assert [102, 111, 111][3..] == [];
  }

  lemma KnownLongerEncodings()
    ensures Encode([102, 111, 111, 98]) == "Zm9vYg==" && Encode([102, 111, 111, 98, 97]) == "Zm9vYmE="
    ensures Encode([102, 111, 111, 98, 97, 114]) == "Zm9vYmFy"
  {
    var bar: seq<Byte> := [102, 111, 111, 98, 97, 114];
    var ba: seq<Byte> := [102, 111, 111, 98, 97];
    var b: seq<Byte> := [102, 111, 111, 98];
    assert bar[3..] == [98, 97, 114] && ba[3..] == [98, 97] && b[3..] == [98];
    assert [98, 97, 114][3..] == [];
  }

  /** The last two letters are those of the URL-safe alphabet, section 5 of RFC 4648. */
  lemma KnownUrlLetters()
    ensures Encode([251, 239, 190]) == "----" && Encode([255, 255, 255]) == "____"
  {
    assert [251, 239, 190][3..] == [] && [255, 255, 255][3..] == [];
  }

  predicate UrlSafe(c: char) {
    'A' <= c <= 'Z' || 'a' <= c <= 'z' || '0' <= c <= '9' || c == '-' || c == '_'
  }

  lemma {:induction false} EncodedIsUrlSafe(bs: seq<Byte>)
    ensures forall n :: 0 <= n < |Encode(bs)| ==> UrlSafe(Encode(bs)[n]) || Encode(bs)[n] == '='
  {
    if |bs| > 2 {
      EncodedIsUrlSafe(bs[3..]);
    }
  }

  /** A cursor needs no escaping in a URL: it is letters, digits, '-' and '_' only. */
  lemma StrippedIsUrlSafe(bs: seq<Byte>)
    ensures forall n :: 0 <= n < |Strip(Encode(bs))| ==> UrlSafe(Strip(Encode(bs))[n])
  {
    var front, pads := EncodeShape(bs);
    EncodedIsUrlSafe(bs);
    StripPads(front, pads);
    forall n | 0 <= n < |front| ensures UrlSafe(front[n]) {
      assert Encode(bs)[n] == front[n];
    }
  }

  // ---------------------------------------------------------------- cursors

  /** The JSON encoding of a key, as far as cursors depend on it. */
  datatype Codec<!K(!new,==)> = Codec(toJson: K -> seq<Byte>, fromJson: seq<Byte> -> Option<K>) {
    /** Reading back what was written for this key. */
    predicate FaithfulOn(k: K) {
      toJson(k) != [] && fromJson(toJson(k)) == Some(k)
    }

    function EncodeCursor(k: K): string {
      Strip(Encode(toJson(k)))
    }

    function DecodeCursor(cursor: string): Option<K> {
      var raw := Decode(Repad(cursor));
      if raw.Some? then fromJson(raw.value) else None
    }

    /** A cursor decodes to the key it was made from and is never empty, so no other key has the same cursor. */
    lemma CursorRoundTrip(k: K)
      requires FaithfulOn(k)
      ensures DecodeCursor(EncodeCursor(k)) == Some(k)
      ensures EncodeCursor(k) != ""
      ensures forall k' :: FaithfulOn(k') && EncodeCursor(k') == EncodeCursor(k) ==> k' == k
    {
      StrippedRoundTrip(toJson(k));
      forall k' | FaithfulOn(k') && EncodeCursor(k') == EncodeCursor(k) ensures k' == k {
        StrippedRoundTrip(toJson(k'));
      }
    }
  }
}
