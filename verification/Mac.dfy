/** Hardware addresses as bytes and as the text that travels in node annotations. */
module Mac {
  import opened Wrappers
  import opened Text

  type Byte = b: int | 0 <= b < 256

  /** Two lower-case hex digits. */
  function HexByte(b: Byte): string {
    [Digit(b / 16), Digit(b % 16)]
  }

  function HexBytes(bytes: seq<Byte>): seq<string> {
    seq(|bytes|, i requires 0 <= i < |bytes| => HexByte(bytes[i]))
  }

  /** The text of a link address: its bytes in hex, joined by colons. */
  function FormatMac(bytes: seq<Byte>): string {
    if bytes == [] then "" else Join(HexBytes(bytes), ':')
  }

  /** Every piece as a number below 256; None if one is not. */
  function ParseBytes(pieces: seq<string>): Option<seq<Byte>> {
    if pieces == [] then Some([])
    else
      match (ParseUnsigned(pieces[0], 16, 256), ParseBytes(pieces[1..]))
      case (Some(b), Some(rest)) => Some([b] + rest)
      case _ => None
  }

  /** Exactly six bytes in hex, separated by colons. */
  function ParseMac(s: string): Option<seq<Byte>> {
    match ParseBytes(Split(s, ':'))
    case Some(bytes) => if |bytes| == 6 then Some(bytes) else None
    case None => None
  }

  lemma HexByteIs(b: Byte)
    ensures HexByte(b) == ["0123456789abcdef"[b / 16], "0123456789abcdef"[b % 16]]
  {
  }

  lemma {:induction false} ParseBytesMeans(pieces: seq<string>)
    ensures match ParseBytes(pieces)
            case Some(bytes) =>
              |bytes| == |pieces| && forall i | 0 <= i < |pieces| :: ParseUnsigned(pieces[i], 16, 256) == Some(bytes[i])
            case None => exists i :: 0 <= i < |pieces| && ParseUnsigned(pieces[i], 16, 256) == None
  {
    if pieces != [] {
      ParseBytesMeans(pieces[1..]);
      if ParseBytes(pieces[1..]).None? {
        var i :| 0 <= i < |pieces| - 1 && ParseUnsigned(pieces[1..][i], 16, 256) == None;
        assert pieces[i + 1] == pieces[1..][i];
      }
    }
  }

  /** Six hexadecimal numbers below 256 with colons between them, and what they are. */
  ghost predicate SixBytes(pieces: seq<string>, s: string, bytes: seq<Byte>) {
    && |pieces| == 6 == |bytes| && s == Join(pieces, ':')
    && forall i | 0 <= i < 6 :: ':' !in pieces[i] && Numeral(pieces[i], 16, 256, bytes[i])
  }

  /** Exactly such texts are hardware addresses, and stand for those bytes. */
  lemma ParseMacIff(s: string, bytes: seq<Byte>)
    ensures ParseMac(s) == Some(bytes) <==> exists pieces :: SixBytes(pieces, s, bytes)
  {
    var own := Split(s, ':');
    SplitPieces(s, ':');
    JoinSplit(s, ':');
    ParseBytesMeans(own);
    if ParseMac(s) == Some(bytes) {
      forall i | 0 <= i < 6
        ensures ':' !in own[i] && Numeral(own[i], 16, 256, bytes[i])
      {
        assert own[i] in own;
        ParseUnsignedIff(own[i], 16, 256, bytes[i]);
      }
      assert SixBytes(own, s, bytes);
    }
    forall pieces | SixBytes(pieces, s, bytes)
      ensures ParseMac(s) == Some(bytes)
    {
      SplitJoin(pieces, ':');
      forall i | 0 <= i < 6
        ensures ParseUnsigned(own[i], 16, 256) == Some(bytes[i])
      {
        ParseUnsignedIff(pieces[i], 16, 256, bytes[i]);
      }
      assert ParseBytes(own).Some?;
      assert ParseBytes(own).value == bytes;
    }
  }

  lemma HexByteRoundTrip(b: Byte)
    ensures ParseUnsigned(HexByte(b), 16, 256) == Some(b)
    ensures ':' !in HexByte(b)
  {
    DigitRoundTrip(b / 16);
    DigitRoundTrip(b % 16);
    assert HexByte(b)[1..] == [Digit(b % 16)];
    assert DigitsFrom([Digit(b % 16)], 16, b / 16) == Some(b);
  }

  lemma {:induction false} ParseHexBytes(bytes: seq<Byte>)
    ensures ParseBytes(HexBytes(bytes)) == Some(bytes)
  {
    if bytes == [] {
      assert HexBytes(bytes) == [];
    } else {
      assert HexBytes(bytes)[1..] == HexBytes(bytes[1..]);
      ParseHexBytes(bytes[1..]);
      HexByteRoundTrip(bytes[0]);
      assert bytes == [bytes[0]] + bytes[1..];
    }
  }

  /** A published link address parses back to its bytes, exactly if there are six of them. */
  lemma MacRoundTrip(bytes: seq<Byte>)
    ensures ParseMac(FormatMac(bytes)) == if |bytes| == 6 then Some(bytes) else None
  {
    if bytes == [] {
      assert Split("", ':') == [""];
    } else {
      var pieces := HexBytes(bytes);
      forall x | x in pieces
        ensures ':' !in x
      {
        var i :| 0 <= i < |bytes| && x == HexByte(bytes[i]);
        HexByteRoundTrip(bytes[i]);
      }
      SplitJoin(pieces, ':');
      ParseHexBytes(bytes);
    }
  }

  /** The text of a hardware address is not unique: a plus sign in front changes nothing. */
  lemma PlusSignAccepted(bytes: seq<Byte>)
    requires |bytes| == 6
    ensures ParseMac("+" + FormatMac(bytes)) == ParseMac(FormatMac(bytes)) == Some(bytes)
  {
    MacRoundTrip(bytes);
    var pieces := HexBytes(bytes);
    var other := ["+" + pieces[0]] + pieces[1..];
    assert "+" + Join(pieces, ':') == Join(other, ':');
    forall x | x in other
      ensures ':' !in x
    {
      var i :| 0 <= i < 6 && x == if i == 0 then "+" + HexByte(bytes[0]) else HexByte(bytes[i]);
      HexByteRoundTrip(bytes[i]);
    }
    SplitJoin(other, ':');
    ParseHexBytes(bytes);
    HexByteRoundTrip(bytes[0]);
    assert ("+" + HexByte(bytes[0]))[1..] == HexByte(bytes[0]) && HexByte(bytes[0])[0] != '+';
    assert other[1..] == pieces[1..];
  }
}
