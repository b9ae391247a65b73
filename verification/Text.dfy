/** The pieces of text handling the daemon and the plugins share: splitting and numbers. */
module Text {
  import opened Wrappers

  /** The pieces of s between occurrences of a separator; never empty. */
  function Split(s: string, sep: char): (pieces: seq<string>)
    ensures |pieces| >= 1
  {
    if s == [] then [""]
    else
      var rest := Split(s[1..], sep);
      if s[0] == sep then [""] + rest else [[s[0]] + rest[0]] + rest[1..]
  }

  function Join(pieces: seq<string>, sep: char): string
    requires |pieces| >= 1
  {
    if |pieces| == 1 then pieces[0] else pieces[0] + [sep] + Join(pieces[1..], sep)
  }

  lemma {:induction false} SplitNoSep(s: string, sep: char)
    requires sep !in s
    ensures Split(s, sep) == [s]
  {
    if s != [] {
      assert sep !in s[1..];
      SplitNoSep(s[1..], sep);
      assert [s[0]] + s[1..] == s;
    }
  }

  lemma {:induction false} SplitFirst(a: string, sep: char, b: string)
    requires sep !in a
    ensures Split(a + [sep] + b, sep) == [a] + Split(b, sep)
  {
    if a == [] {
      assert a + [sep] + b == [sep] + b;
    } else {
      assert (a + [sep] + b)[1..] == a[1..] + [sep] + b;
      SplitFirst(a[1..], sep, b);
      assert [a[0]] + a[1..] == a;
    }
  }

  /** Splitting undoes joining, when no piece holds the separator. */
  lemma {:induction false} SplitJoin(pieces: seq<string>, sep: char)
    requires |pieces| >= 1 && forall x | x in pieces :: sep !in x
    ensures Split(Join(pieces, sep), sep) == pieces
  {
    assert pieces[0] in pieces;
    if |pieces| == 1 {
      SplitNoSep(pieces[0], sep);
    } else {
      assert forall x | x in pieces[1..] :: x in pieces;
      SplitJoin(pieces[1..], sep);
      SplitFirst(pieces[0], sep, Join(pieces[1..], sep));
    }
  }

  /** And joining undoes splitting. */
  lemma {:induction false} JoinSplit(s: string, sep: char)
    ensures Join(Split(s, sep), sep) == s
  {
    if s != [] {
      var rest := Split(s[1..], sep);
      JoinSplit(s[1..], sep);
      if s[0] == sep {
        assert ([""] + rest)[1..] == rest;
        assert s == [s[0]] + s[1..];
      } else {
        var first := [s[0]] + rest[0];
        assert ([first] + rest[1..])[1..] == rest[1..];
        assert Join([first] + rest[1..], sep) == [s[0]] + Join(rest, sep);
      }
    }
  }

  /** No piece of a split holds the separator, nor anything that was not in the text. */
  lemma {:induction false} SplitPieces(s: string, sep: char)
    ensures forall x | x in Split(s, sep) :: sep !in x && forall c | c in x :: c in s
  {
    if s != [] {
      SplitPieces(s[1..], sep);
      var rest := Split(s[1..], sep);
      assert sep !in rest[0] && forall c | c in rest[0] :: c in s by {
        assert rest[0] in rest;
      }
      forall x | x in rest[1..]
        ensures sep !in x && forall c | c in x :: c in s
      {
        assert x in rest;
      }
      forall x | x in Split(s, sep)
        ensures sep !in x && forall c | c in x :: c in s
      {
        if s[0] == sep {
          assert x == "" || x == rest[0] || x in rest[1..];
        } else {
          assert x == [s[0]] + rest[0] || x in rest[1..];
        }
      }
    }
  }

  // -------------------------------------------------------------------- lines

  function StripCr(s: string): string {
    if s != [] && s[|s| - 1] == '\r' then s[..|s| - 1] else s
  }

  /** The lines that end in a newline lose it, and one carriage return before it. */
  function StripEach(pieces: seq<string>): seq<string> {
    seq(|pieces|, i requires 0 <= i < |pieces| => StripCr(pieces[i]))
  }

  /** The lines of a text; what follows the last newline counts only if it is not empty. */
  function Lines(s: string): seq<string> {
    var pieces := Split(s, '\n');
    var last := pieces[|pieces| - 1];
    StripEach(pieces[..|pieces| - 1]) + (if last == "" then [] else [last])
  }

  /** The lines of a text, one after the other: these two cases are all there are. */
  lemma LinesOf(a: string, rest: string)
    requires '\n' !in a
    ensures Lines(a) == if a == "" then [] else [a]
    ensures Lines(a + "\n" + rest) == [StripCr(a)] + Lines(rest)
  {
    SplitNoSep(a, '\n');
    SplitFirst(a, '\n', rest);
    hide StripCr, Split;
    LinesOfPieces(a, a + "\n" + rest, rest);
    assert [a][..0] == [];
  }

  lemma LinesOfPieces(a: string, s: string, rest: string)
    requires Split(s, '\n') == [a] + Split(rest, '\n')
    ensures Lines(s) == [StripCr(a)] + Lines(rest)
  {
    hide StripCr, Split;
    var pieces := Split(rest, '\n');
    var k := |pieces| - 1;
    assert ([a] + pieces)[..k + 1] == [a] + pieces[..k];
    assert StripEach([a] + pieces[..k]) == [StripCr(a)] + StripEach(pieces[..k]);
  }

  /** One carriage return at the end goes, and nothing else. */
  lemma StripCrMeans(s: string)
    ensures StripCr(s + "\r") == s
    ensures s == "" || s[|s| - 1] != '\r' ==> StripCr(s) == s
  {
    assert (s + "\r")[..|s|] == s;
  }

  lemma LinesHaveNoNewline(s: string)
    ensures forall line | line in Lines(s) :: '\n' !in line
  {
    SplitPieces(s, '\n');
    var pieces := Split(s, '\n');
    forall line | line in Lines(s)
      ensures '\n' !in line
    {
      if line in StripEach(pieces[..|pieces| - 1]) {
        var i :| 0 <= i < |pieces| - 1 && line == StripCr(pieces[i]);
        assert pieces[i] in pieces;
      }
    }
  }

  /** Unicode white space. */
  predicate IsBlank(c: char) {
    '\t' <= c <= '\r' || c == ' ' || c == '\U{85}' || c == '\U{A0}' || c == '\U{1680}' || '\U{2000}' <= c <= '\U{200A}'
    || c == '\U{2028}' || c == '\U{2029}' || c == '\U{202F}' || c == '\U{205F}' || c == '\U{3000}'
  }

  /** The code points with the White_Space property. */
  lemma BlanksAre(c: char)
    ensures IsBlank(c) <==>
              c as int in {0x9, 0xA, 0xB, 0xC, 0xD, 0x20, 0x85, 0xA0, 0x1680, 0x2000, 0x2001, 0x2002, 0x2003, 0x2004,
                           0x2005, 0x2006, 0x2007, 0x2008, 0x2009, 0x200A, 0x2028, 0x2029, 0x202F, 0x205F, 0x3000}
  {
  }

  function TrimStart(s: string): string {
    if s != [] && IsBlank(s[0]) then TrimStart(s[1..]) else s
  }

  function TrimEnd(s: string): string {
    if s != [] && IsBlank(s[|s| - 1]) then TrimEnd(s[..|s| - 1]) else s
  }

  function Trim(s: string): string {
    TrimEnd(TrimStart(s))
  }

  /** A text without blanks at either end; exactly these are left alone by trimming. */
  predicate Trimmed(s: string) {
    s != [] ==> !IsBlank(s[0]) && !IsBlank(s[|s| - 1])
  }

  lemma {:induction false} TrimStartPart(s: string)
    ensures TrimStart(s) != [] ==> !IsBlank(TrimStart(s)[0])
    ensures |TrimStart(s)| <= |s| && TrimStart(s) == s[|s| - |TrimStart(s)|..]
  {
    if s != [] && IsBlank(s[0]) {
      TrimStartPart(s[1..]);
    }
  }

  lemma {:induction false} TrimEndPart(s: string)
    ensures TrimEnd(s) != [] ==> !IsBlank(TrimEnd(s)[|TrimEnd(s)| - 1])
    ensures |TrimEnd(s)| <= |s| && TrimEnd(s) == s[..|TrimEnd(s)|]
  {
    if s != [] && IsBlank(s[|s| - 1]) {
      TrimEndPart(s[..|s| - 1]);
    }
  }

  /** Trimming gives a trimmed part of the text, and leaves exactly the trimmed texts alone. */
  lemma TrimGivesTrimmed(s: string)
    ensures Trimmed(Trim(s)) && forall c | c in Trim(s) :: c in s
    ensures Trim(s) == s <==> Trimmed(s)
  {
    TrimStartPart(s);
    TrimEndPart(TrimStart(s));
  }

  /** A carriage return at the end is blank, so stripping it first makes no difference. */
  lemma TrimStripCr(s: string)
    ensures Trim(StripCr(s)) == Trim(s)
  {
    if s != [] && s[|s| - 1] == '\r' {
      TrimDropLast(s);
    }
  }

  lemma {:induction false} TrimDropLast(s: string)
    requires s != [] && IsBlank(s[|s| - 1])
    ensures Trim(s[..|s| - 1]) == Trim(s)
  {
    if IsBlank(s[0]) && |s| > 1 {
      TrimDropLast(s[1..]);
      assert s[1..][..|s| - 2] == s[..|s| - 1][1..];
    } else if |s| == 1 {
      assert s[1..] == [] && s[..0] == [];
    }
  }

  predicate AllBlank(s: string) {
    forall c | c in s :: IsBlank(c)
  }

  lemma {:induction false} TrimStartBlanks(a: string, s: string)
    requires AllBlank(a)
    ensures TrimStart(a + s) == TrimStart(s)
  {
    if a == [] {
      assert a + s == s;
    } else {
      assert (a + s)[1..] == a[1..] + s;
      TrimStartBlanks(a[1..], s);
    }
  }

  lemma {:induction false} TrimEndBlanks(s: string, b: string)
    requires AllBlank(b)
    ensures TrimEnd(s + b) == TrimEnd(s)
  {
    if b == [] {
      assert s + b == s;
    } else {
      assert (s + b)[..|s + b| - 1] == s + b[..|b| - 1];
      TrimEndBlanks(s, b[..|b| - 1]);
    }
  }

  /** Trimming takes away exactly the blanks around a trimmed text. */
  lemma TrimPadded(a: string, s: string, b: string)
    requires AllBlank(a) && AllBlank(b) && Trimmed(s)
    ensures Trim(a + s + b) == s
  {
    assert a + s + b == a + (s + b);
    TrimStartBlanks(a, s + b);
    if s == [] {
      TrimStartBlanks(b, []);
      assert s + b == b && b + [] == b;
    } else {
      TrimEndBlanks(s, b);
    }
  }

  /** Trimming takes the blanks off both ends, and nothing else. */
  lemma TrimIff(s: string, t: string)
    ensures Trim(s) == t <==> exists a, b :: AllBlank(a) && AllBlank(b) && s == a + t + b && Trimmed(t)
  {
    var a, b := TakenOff(s);
    TrimGivesTrimmed(s);
    hide *;
    forall x, y | AllBlank(x) && AllBlank(y) && s == x + t + y && Trimmed(t)
      ensures Trim(s) == t
    {
      TrimPadded(x, t, y);
    }
  }

  lemma TakenOff(s: string) returns (a: string, b: string)
    ensures AllBlank(a) && AllBlank(b) && s == a + Trim(s) + b
  {
    var start := TrimStart(s);
    TrimStartPart(s);
    TrimEndPart(start);
    a, b := s[..|s| - |start|], start[|Trim(s)|..];
    TakenOffStart(s);
    TakenOffEnd(start);
    hide *;
    assert s == a + start;
  }

  lemma {:induction false} TakenOffStart(s: string)
    ensures |TrimStart(s)| <= |s| && AllBlank(s[..|s| - |TrimStart(s)|])
  {
    TrimStartPart(s);
    if s != [] && IsBlank(s[0]) {
      TakenOffStart(s[1..]);
      TrimStartPart(s[1..]);
      var k := |s| - |TrimStart(s)|;
      assert s[..k] == [s[0]] + s[1..][..k - 1];
    }
  }

  lemma {:induction false} TakenOffEnd(s: string)
    ensures |TrimEnd(s)| <= |s| && AllBlank(s[|TrimEnd(s)|..])
  {
    TrimEndPart(s);
    if s != [] && IsBlank(s[|s| - 1]) {
      TakenOffEnd(s[..|s| - 1]);
      TrimEndPart(s[..|s| - 1]);
      var k := |TrimEnd(s)|;
      assert s[k..] == s[..|s| - 1][k..] + [s[|s| - 1]];
    }
  }

  // ------------------------------------------------------------------ numbers

  function DigitValue(c: char): Option<nat> {
    if '0' <= c <= '9' then Some(c as int - '0' as int)
    else if 'a' <= c <= 'f' then Some(c as int - 'a' as int + 10)
    else if 'A' <= c <= 'F' then Some(c as int - 'A' as int + 10)
    else None
  }

  /** The lower-case digit for a value below sixteen. */
  function Digit(v: nat): char
    requires v < 16
  {
    if v < 10 then ('0' as int + v) as char else ('a' as int + v - 10) as char
  }

  lemma DigitRoundTrip(v: nat)
    requires v < 16
    ensures DigitValue(Digit(v)) == Some(v)
    ensures Digit(v) != ':' && Digit(v) != '+'
  {
  }

  function Append(acc: nat, radix: nat, v: nat): nat {
    acc * radix + v
  }

  /** The digits of s in the given radix, after an accumulated value; None on any other character. */
  function DigitsFrom(s: string, radix: nat, acc: nat): Option<nat> {
    if s == [] then Some(acc)
    else
      match DigitValue(s[0])
      case Some(v) => if v < radix then DigitsFrom(s[1..], radix, Append(acc, radix, v)) else None
      case None => None
  }

  /** Unsigned parsing with a limit: an optional plus sign, at least one digit, no overflow. */
  function ParseUnsigned(s: string, radix: nat, limit: nat): Option<nat> {
    var digits := if s != [] && s[0] == '+' then s[1..] else s;
    if digits == [] then None
    else
      match DigitsFrom(digits, radix, 0)
      case Some(v) => if v < limit then Some(v) else None
      case None => None
  }

  lemma {:induction false} DigitsFromSnoc(s: string, radix: nat, acc: nat, v: nat)
    requires v < radix <= 16 && DigitsFrom(s, radix, acc).Some?
    ensures DigitsFrom(s + [Digit(v)], radix, acc) == Some(Append(DigitsFrom(s, radix, acc).value, radix, v))
  {
    DigitRoundTrip(v);
    hide DigitValue, Digit, Append;
    if s == [] {
      assert (s + [Digit(v)])[1..] == [];
    } else {
      assert (s + [Digit(v)])[1..] == s[1..] + [Digit(v)];
      DigitsFromSnoc(s[1..], radix, Append(acc, radix, DigitValue(s[0]).value), v);
    }
  }

  /** What a hexadecimal digit is worth, by its code point; 16 for any other character. */
  function Worth(c: char): nat {
    var code := c as int;
    if 48 <= code <= 57 then code - 48
    else if 97 <= code <= 102 then code - 87
    else if 65 <= code <= 70 then code - 55
    else 16
  }

  /** The number that digits stand for: the last is worth itself, those before it the radix times as much. */
  function Place(digits: string, radix: nat): nat {
    if digits == [] then 0 else Place(digits[..|digits| - 1], radix) * radix + Worth(digits[|digits| - 1])
  }

  predicate AllDigits(s: string, radix: nat) {
    forall c | c in s :: Worth(c) < radix
  }

  /** An unsigned number: digits, perhaps after one plus sign, that stand for a number below the limit. */
  ghost predicate Numeral(s: string, radix: nat, limit: nat, n: nat) {
    exists digits: string ::
      && (s == digits || s == "+" + digits) && digits != "" && AllDigits(digits, radix)
      && n == Place(digits, radix) < limit
  }

  lemma {:induction false} DigitsFromMeans(s: string, radix: nat, acc: nat)
    requires radix <= 16
    ensures DigitsFrom(s, radix, acc).Some? <==> AllDigits(s, radix)
  {
    if s != [] {
      assert DigitValue(s[0]) == if Worth(s[0]) < 16 then Some(Worth(s[0])) else None;
      assert forall c | c in s :: c == s[0] || c in s[1..];
      if Worth(s[0]) < radix {
        DigitsFromMeans(s[1..], radix, Append(acc, radix, Worth(s[0])));
      } else {
        assert s[0] in s;
      }
    }
  }

  /** Reading digits from the left gives what they stand for. */
  lemma {:induction false} DigitsFromPlace(s: string, radix: nat)
    requires radix <= 16 && AllDigits(s, radix)
    ensures DigitsFrom(s, radix, 0) == Some(Place(s, radix))
  {
    if s != [] {
      var init, c := s[..|s| - 1], s[|s| - 1];
      assert s == init + [c] && c in s && forall x | x in init :: x in s;
      DigitsFromPlace(init, radix);
      DigitsFromOneMore(init, radix, 0, c);
    }
  }

  lemma {:induction false} DigitsFromOneMore(s: string, radix: nat, acc: nat, c: char)
    requires radix <= 16 && Worth(c) < radix && DigitsFrom(s, radix, acc).Some?
    ensures DigitsFrom(s + [c], radix, acc) == Some(DigitsFrom(s, radix, acc).value * radix + Worth(c))
  {
    assert DigitValue(c) == Some(Worth(c));
    if s == [] {
      assert (s + [c])[1..] == [];
    } else {
      assert (s + [c])[1..] == s[1..] + [c];
      DigitsFromOneMore(s[1..], radix, Append(acc, radix, DigitValue(s[0]).value), c);
    }
  }

  /** Parsing accepts exactly the numerals, and gives what they stand for. */
  lemma ParseUnsignedIff(s: string, radix: nat, limit: nat, n: nat)
    requires radix <= 16
    ensures ParseUnsigned(s, radix, limit) == Some(n) <==> Numeral(s, radix, limit, n)
  {
    var digits := if s != [] && s[0] == '+' then s[1..] else s;
    assert s == digits || s == "+" + digits;
    DigitsFromMeans(digits, radix, 0);
    if AllDigits(digits, radix) {
      DigitsFromPlace(digits, radix);
    }
    forall other: string | (s == other || s == "+" + other) && other != "" && AllDigits(other, radix)
      ensures other == digits
    {
      assert other[0] in other && other[0] != '+';
    }
  }

  lemma ParseUnsignedNone(s: string, radix: nat, limit: nat)
    requires radix <= 16
    ensures ParseUnsigned(s, radix, limit) == None <==> forall n: nat :: !Numeral(s, radix, limit, n)
  {
    if ParseUnsigned(s, radix, limit).Some? {
      ParseUnsignedIff(s, radix, limit, ParseUnsigned(s, radix, limit).value);
    }
    forall n: nat
      ensures ParseUnsigned(s, radix, limit) == Some(n) <==> Numeral(s, radix, limit, n)
    {
      ParseUnsignedIff(s, radix, limit, n);
    }
  }

  /** The usual decimal form, without leading zeros. */
  function Decimal(n: nat): (s: string)
    ensures s != [] && forall c | c in s :: '0' <= c <= '9'
  {
    if n < 10 then [Digit(n)] else Decimal(n / 10) + [Digit(n % 10)]
  }

  lemma {:induction false} DecimalValue(n: nat)
    ensures DigitsFrom(Decimal(n), 10, 0) == Some(n)
  {
    if n < 10 {
      DigitRoundTrip(n);
    } else {
      DecimalValue(n / 10);
      DigitsFromSnoc(Decimal(n / 10), 10, 0, n % 10);
    }
  }

  /** The decimal form has no leading zeros, but for zero itself. */
  lemma {:induction false} DecimalUsual(n: nat)
    ensures Decimal(n) == "0" <==> n == 0
    ensures n > 0 ==> Decimal(n)[0] != '0'
    ensures AllDigits(Decimal(n), 10) && Place(Decimal(n), 10) == n
  {
    if n < 10 {
      assert Decimal(n)[..0] == [] && Place([], 10) == 0;
    } else {
      DecimalUsual(n / 10);
      assert Decimal(n)[..|Decimal(n)| - 1] == Decimal(n / 10);
      assert |Decimal(n)| >= 2;
    }
  }

  /** Parsing a number's decimal form gives the number back, below the limit. */
  lemma DecimalRoundTrip(n: nat, limit: nat)
    ensures ParseUnsigned(Decimal(n), 10, limit) == if n < limit then Some(n) else None
  {
    DecimalValue(n);
  }
}
