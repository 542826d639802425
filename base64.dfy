/** Base 64 as defined in section 4 of RFC 4648: the alphabet A-Z a-z 0-9 + /
    with '=' padding, as written by `Convert.ToBase64String` and read by
    `Convert.FromBase64String`, which also skips space, tab, carriage return
    and line feed wherever they occur and ignores the unused low bits of a
    padded last quantum. */
module Base64 {
  import opened Common

  /** The character for a 6-bit value (Table 1 of RFC 4648). */
  function Digit(n: nat): (c: char)
    requires n < 64
    ensures !IsSkipped(c) && c != '='
  {
    if n < 26 then ('A' as int + n) as char
    else if n < 52 then ('a' as int + (n - 26)) as char
    else if n < 62 then ('0' as int + (n - 52)) as char
    else if n == 62 then '+'
    else '/'
  }

  /** The 6-bit value of an alphabet character; None for anything else,
      the pad character '=' included. */
  function CharValue(c: char): (r: Option<nat>)
    ensures r.Some? ==> r.value < 64
  {
    if 'A' <= c <= 'Z' then Some(c as int - 'A' as int)
    else if 'a' <= c <= 'z' then Some(c as int - 'a' as int + 26)
    else if '0' <= c <= '9' then Some(c as int - '0' as int + 52)
    else if c == '+' then Some(62)
    else if c == '/' then Some(63)
    else None
  }

  lemma DigitValue(n: nat)
    requires n < 64
    ensures CharValue(Digit(n)) == Some(n)
  {
  }

  /** Three bytes as four characters. */
  function EncodeBlock(a: byte, b: byte, c: byte): (q: string)
    ensures |q| == 4
  {
    [Digit(a / 4), Digit((a % 4) * 16 + b / 16), Digit((b % 16) * 4 + c / 64), Digit(c % 64)]
  }

  /** `Convert.ToBase64String`. */
  function Encode(bs: seq<byte>): (s: string)
    ensures |s| % 4 == 0
    ensures |bs| > 0 ==> |s| >= 4
  {
    if |bs| == 0 then ""
    else if |bs| == 1 then [Digit(bs[0] / 4), Digit((bs[0] % 4) * 16), '=', '=']
    else if |bs| == 2 then [Digit(bs[0] / 4), Digit((bs[0] % 4) * 16 + bs[1] / 16), Digit((bs[1] % 16) * 4), '=']
    else
      var rest := Encode(bs[3..]);
      assert |rest| % 4 == 0;
      EncodeBlock(bs[0], bs[1], bs[2]) + rest
  }

  /** A sequence of more than three bytes is its first three and the rest. */
  lemma SplitBlock(bs: seq<byte>)
    requires |bs| > 3
    ensures bs == [bs[0], bs[1], bs[2]] + bs[3..]
  {
  }

  /** Every three bytes, and a final one or two, take four characters. */
  lemma {:induction false} EncodedLength(bs: seq<byte>)
    ensures |Encode(bs)| == 4 * ((|bs| + 2) / 3)
    decreases |bs|
  {
    if |bs| > 2 {
      EncodedLength(bs[3..]);
      assert (|bs| + 2) / 3 == (|bs[3..]| + 2) / 3 + 1;
    }
  }

  /** The sizes the password hasher uses: a 16-byte salt takes 24 characters
      and a 32-byte hash 44. */
  lemma SaltAndHashLengths(salt: seq<byte>, hash: seq<byte>)
    requires |salt| == 16 && |hash| == 32
    ensures |Encode(salt)| == 24 && |Encode(hash)| == 44
  {
    EncodedLength(salt);
    EncodedLength(hash);
    assert (|salt| + 2) / 3 == 6 && (|hash| + 2) / 3 == 11;
  }

  /** Four alphabet characters as three bytes. */
  function DecodeBlock(q: string): (r: Option<seq<byte>>)
    requires |q| == 4
    ensures r.Some? ==> |r.value| == 3
  {
    match (CharValue(q[0]), CharValue(q[1]), CharValue(q[2]), CharValue(q[3]))
    case (Some(v0), Some(v1), Some(v2), Some(v3)) =>
      Some([v0 * 4 + v1 / 16, (v1 % 16) * 16 + v2 / 4, (v2 % 4) * 64 + v3])
    case _ => None
  }

  /** The last quantum, which may end in one or two pad characters. */
  function DecodeLast(q: string): (r: Option<seq<byte>>)
    requires |q| == 4
    ensures r.Some? ==> 1 <= |r.value| <= 3
  {
    if q[2] == '=' && q[3] == '=' then
      match (CharValue(q[0]), CharValue(q[1]))
      case (Some(v0), Some(v1)) => Some([v0 * 4 + v1 / 16])
      case _ => None
    else if q[3] == '=' then
      match (CharValue(q[0]), CharValue(q[1]), CharValue(q[2]))
      case (Some(v0), Some(v1), Some(v2)) => Some([v0 * 4 + v1 / 16, (v1 % 16) * 16 + v2 / 4])
      case _ => None
    else DecodeBlock(q)
  }

  function DecodeQuanta(s: string): (r: Option<seq<byte>>)
    requires |s| % 4 == 0
    decreases |s|
  {
    if s == [] then Some([])
    else if |s| == 4 then DecodeLast(s)
    else
      match (DecodeBlock(s[..4]), DecodeQuanta(s[4..]))
      case (Some(head), Some(tail)) => Some(head + tail)
      case _ => None
  }

  /** The characters `Convert.FromBase64String` skips wherever they occur. */
  predicate IsSkipped(c: char) {
    c == ' ' || c == '\t' || c == '\r' || c == '\n'
  }

  /** The text without those characters, the rest in order. */
  function Strip(s: string): (r: string)
    ensures |r| <= |s|
    ensures forall i :: 0 <= i < |r| ==> !IsSkipped(r[i])
    ensures (forall i :: 0 <= i < |s| ==> !IsSkipped(s[i])) ==> r == s
  {
    if s == [] then []
    else
      var init := s[..|s| - 1];
      var c := s[|s| - 1];
      var r := Strip(init);
      assert s == init + [c];
      if IsSkipped(c) then r else r + [c]
  }

  /** Stripping a concatenation strips each part. */
  lemma {:induction false} StripAppend(a: string, b: string)
    ensures Strip(a + b) == Strip(a) + Strip(b)
    decreases |b|
  {
    if b == [] {
      assert a + b == a;
    } else {
      var init := b[..|b| - 1];
      assert a + b == (a + init) + [b[|b| - 1]];
      assert (a + b)[..|a + b| - 1] == a + init;
      StripAppend(a, init);
    }
  }

  /** `Convert.FromBase64String`: None where .NET throws `FormatException`.
      The skipped characters are removed first; what remains must be whole
      quanta. */
  function Decode(s: string): (r: Option<seq<byte>>)
    ensures |Strip(s)| % 4 != 0 ==> r == None
  {
    var t := Strip(s);
    if |t| % 4 != 0 then None else DecodeQuanta(t)
  }

  /** Skipped characters make no difference, wherever they are. */
  lemma DecodeIgnoresSkipped(a: string, b: string, pad: string)
    requires forall i :: 0 <= i < |pad| ==> IsSkipped(pad[i])
    ensures Decode(a + pad + b) == Decode(a + b)
  {
    assert Strip(pad) == [] by {
      if Strip(pad) != [] {
        var r := Strip(pad);
        assert !IsSkipped(r[0]);
        NoneSkippedBelow(pad, r);
      }
    }
    StripAppend(a + pad, b);
    StripAppend(a, pad);
    StripAppend(a, b);
    assert Strip(a + pad + b) == Strip(a + b);
  }

  /** Every character stripping keeps was in the text. */
  lemma {:induction false} NoneSkippedBelow(s: string, r: string)
    requires r == Strip(s) && r != []
    ensures exists i :: 0 <= i < |s| && !IsSkipped(s[i])
    decreases |s|
  {
    var init := s[..|s| - 1];
    if !IsSkipped(s[|s| - 1]) {
      assert !IsSkipped(s[|s| - 1]);
    } else {
      NoneSkippedBelow(init, Strip(init));
      var i :| 0 <= i < |init| && !IsSkipped(init[i]);
      assert s[i] == init[i];
    }
  }

  /** The encoder writes no skipped character. */
  lemma {:induction false} EncodeUnskipped(bs: seq<byte>)
    ensures forall i :: 0 <= i < |Encode(bs)| ==> !IsSkipped(Encode(bs)[i])
    decreases |bs|
  {
    if |bs| > 2 {
      EncodeUnskipped(bs[3..]);
      var head := EncodeBlock(bs[0], bs[1], bs[2]);
      var tail := Encode(bs[3..]);
      assert Encode(bs) == head + tail;
      forall i | 0 <= i < |Encode(bs)|
        ensures !IsSkipped(Encode(bs)[i])
      {
        if i >= 4 {
          assert Encode(bs)[i] == tail[i - 4];
        }
      }
    }
  }

  lemma BlockRoundTrip(a: byte, b: byte, c: byte)
    ensures DecodeBlock(EncodeBlock(a, b, c)) == Some([a, b, c])
  {
    var v0, v1, v2, v3 := a / 4, (a % 4) * 16 + b / 16, (b % 16) * 4 + c / 64, c % 64;
    DigitValue(v0);
    DigitValue(v1);
    DigitValue(v2);
    DigitValue(v3);
    assert v1 / 16 == a % 4 && v1 % 16 == b / 16;
    assert v2 / 4 == b % 16 && v2 % 4 == c / 64;
    var q := EncodeBlock(a, b, c);
    assert q == [Digit(v0), Digit(v1), Digit(v2), Digit(v3)];
  }

  /** The two digits and two pads that end the text of a final single
      byte decode to the byte. */
  lemma DecodeLastSingle(a: byte)
    ensures DecodeLast([Digit(a / 4), Digit((a % 4) * 16), '=', '=']) == Some([a])
  {
    var v0, v1 := a / 4, (a % 4) * 16;
    DigitValue(v0);
    DigitValue(v1);
    assert v1 / 16 == a % 4;
  }

  /** A final single byte: two digits and two pads. */
  lemma OneByteRoundTrip(bs: seq<byte>)
    requires |bs| == 1
    ensures DecodeQuanta(Encode(bs)) == Some(bs)
  {
    var a := bs[0];
    assert Encode(bs) == [Digit(a / 4), Digit((a % 4) * 16), '=', '='];
    DecodeLastSingle(a);
    assert [a] == bs;
  }

  /** The two digits and the pad that end the text of a final pair decode
      to the pair. */
  lemma DecodeLastPair(a: byte, b: byte)
    ensures DecodeLast([Digit(a / 4), Digit((a % 4) * 16 + b / 16), Digit((b % 16) * 4), '=']) == Some([a, b])
  {
    var v0, v1, v2 := a / 4, (a % 4) * 16 + b / 16, (b % 16) * 4;
    DigitValue(v0);
    DigitValue(v1);
    DigitValue(v2);
    var q := [Digit(v0), Digit(v1), Digit(v2), '='];
    assert q[2] != '=';
    assert v1 / 16 == a % 4 && v1 % 16 == b / 16 && v2 / 4 == b % 16;
    assert DecodeLast(q) == Some([v0 * 4 + v1 / 16, (v1 % 16) * 16 + v2 / 4]);
  }

  /** A final pair of bytes: three digits and one pad. */
  lemma TwoByteRoundTrip(bs: seq<byte>)
    requires |bs| == 2
    ensures DecodeQuanta(Encode(bs)) == Some(bs)
  {
    var a, b := bs[0], bs[1];
    assert Encode(bs) == [Digit(a / 4), Digit((a % 4) * 16 + b / 16), Digit((b % 16) * 4), '='];
    DecodeLastPair(a, b);
    assert [a, b] == bs;
  }

  /** A final group of three bytes: one full quantum. */
  lemma ThreeByteRoundTrip(bs: seq<byte>)
    requires |bs| == 3
    ensures DecodeQuanta(Encode(bs)) == Some(bs)
  {
    assert bs[3..] == [];
    assert Encode(bs) == EncodeBlock(bs[0], bs[1], bs[2]);
    BlockRoundTrip(bs[0], bs[1], bs[2]);
    assert [bs[0], bs[1], bs[2]] == bs;
  }

  /** Decoding a leading full quantum followed by more quanta. */
  lemma DecodeSplit(head: string, tail: string)
    requires |head| == 4 && |tail| % 4 == 0 && tail != []
    ensures DecodeQuanta(head + tail) ==
      match (DecodeBlock(head), DecodeQuanta(tail))
      case (Some(h), Some(t)) => Some(h + t)
      case _ => None
  {
    var s := head + tail;
    assert s[..4] == head && s[4..] == tail;
  }

  /** One full leading quantum in front of a tail that round-trips. */
  lemma LeadingBlockRoundTrip(a: byte, b: byte, c: byte, rest: seq<byte>)
    requires rest != []
    requires DecodeQuanta(Encode(rest)) == Some(rest)
    ensures DecodeQuanta(Encode([a, b, c] + rest)) == Some([a, b, c] + rest)
  {
    var bs := [a, b, c] + rest;
    assert bs[..3] == [a, b, c] && bs[3..] == rest;
    var head, tail := EncodeBlock(a, b, c), Encode(rest);
    assert Encode(bs) == head + tail;
    BlockRoundTrip(a, b, c);
    DecodeSplit(head, tail);
  }

  lemma {:induction false} QuantaRoundTrip(bs: seq<byte>)
    ensures DecodeQuanta(Encode(bs)) == Some(bs)
    decreases |bs|
  {
    if |bs| == 1 {
      OneByteRoundTrip(bs);
    } else if |bs| == 2 {
      TwoByteRoundTrip(bs);
    } else if |bs| == 3 {
      ThreeByteRoundTrip(bs);
    } else if |bs| > 3 {
      var a, b, c, rest := bs[0], bs[1], bs[2], bs[3..];
      SplitBlock(bs);
      QuantaRoundTrip(rest);
      LeadingBlockRoundTrip(a, b, c, rest);
    }
  }

  /** Decoding inverts encoding. */
  lemma RoundTrip(bs: seq<byte>)
    ensures Decode(Encode(bs)) == Some(bs)
  {
    EncodeUnskipped(bs);
    QuantaRoundTrip(bs);
  }
}
