/**
 The subnet.env file: written by the daemon, read by the flannel plugin, in two
 separate programs that must agree.
 */
module SubnetEnv {
  import opened Wrappers
  import opened Text

  const U32_LIMIT := 0x1_0000_0000

  type U32 = n: int | 0 <= n < U32_LIMIT

  datatype Env = Env(network: string, subnet: string, mtu: U32, ipmasq: bool)

  datatype ParseError = MalformedLine(line: string) | BadMtu(text: string) | MissingNetwork | MissingSubnet | MissingMtu

  // ----------------------------------------------------------------------- writing

  function Flag(b: bool): string {
    if b then "true" else "false"
  }

  function Assignment(key: string, value: string): string {
    key + "=" + value
  }

  function RenderedLines(e: Env): seq<string> {
    [Assignment("FLANNEL_NETWORK", e.network),
     Assignment("FLANNEL_SUBNET", e.subnet),
     Assignment("FLANNEL_MTU", Decimal(e.mtu)),
     Assignment("FLANNEL_IPMASQ", Flag(e.ipmasq))]
  }

  /** Four lines, each ended by a newline. */
  function Render(e: Env): string {
    var lines := RenderedLines(e);
    lines[0] + "\n" + lines[1] + "\n" + lines[2] + "\n" + lines[3] + "\n"
  }

  // ----------------------------------------------------------------------- reading

  /** Splits a line at its first equals sign. */
  function SplitOnce(s: string): Option<(string, string)> {
    if s == [] then None
    else if s[0] == '=' then Some(("", s[1..]))
    else
      match SplitOnce(s[1..])
      case Some(kv) => Some(([s[0]] + kv.0, kv.1))
      case None => None
  }

  datatype Fields = Fields(network: Option<string>, subnet: Option<string>, mtu: Option<U32>, ipmasq: Option<bool>)

  const NO_FIELDS := Fields(None, None, None, None)

  /** The fields after one more line; later lines win, and unknown keys are ignored. */
  function ReadLine(f: Fields, line: string): Result<Fields, ParseError> {
    var trimmed := Trim(line);
    if trimmed == "" then Ok(f)
    else
      match SplitOnce(trimmed)
      case None => Err(MalformedLine(trimmed))
      case Some((k, v)) =>
        var key, value := Trim(k), Trim(v);
        if key == "FLANNEL_NETWORK" then Ok(f.(network := Some(value)))
        else if key == "FLANNEL_SUBNET" then Ok(f.(subnet := Some(value)))
        else if key == "FLANNEL_MTU" then
          (match ParseUnsigned(value, 10, U32_LIMIT)
           case Some(n) => Ok(f.(mtu := Some(n)))
           case None => Err(BadMtu(value)))
        else if key == "FLANNEL_IPMASQ" then Ok(f.(ipmasq := Some(value == "true")))
        else Ok(f)
  }

  function ReadLines(lines: seq<string>): Result<Fields, ParseError> {
    if lines == [] then Ok(NO_FIELDS)
    else
      match ReadLines(lines[..|lines| - 1])
      case Err(e) => Err(e)
      case Ok(f) => ReadLine(f, lines[|lines| - 1])
  }

  function Finish(f: Fields): Result<Env, ParseError> {
    if f.network.None? then Err(MissingNetwork)
    else if f.subnet.None? then Err(MissingSubnet)
    else if f.mtu.None? then Err(MissingMtu)
    else Ok(Env(f.network.value, f.subnet.value, f.mtu.value, match f.ipmasq case Some(b) => b case None => false))
  }

  function Parsed(s: string): Result<Env, ParseError> {
    match ReadLines(Lines(s))
    case Err(e) => Err(e)
    case Ok(f) => Finish(f)
  }

  method Parse(s: string) returns (r: Result<Env, ParseError>)
    ensures r == Parsed(s)
  {
    var network: Option<string>, subnet: Option<string>, mtu: Option<U32>, ipmasq: Option<bool> := None, None, None,
         None;
    var lines := Lines(s);
    for i := 0 to |lines|
      invariant ReadLines(lines[..i]) == Ok(Fields(network, subnet, mtu, ipmasq))
    {
      assert lines[..i + 1][..i] == lines[..i];
      FirstErrorStands(lines, i + 1);
      var line := Trim(lines[i]);
      if line == "" {
        continue;
      }
      var kv := SplitOnce(line);
      if kv.None? {
        return Err(MalformedLine(line));
      }
      var key, value := Trim(kv.value.0), Trim(kv.value.1);
      if key == "FLANNEL_NETWORK" {
        network := Some(value);
      } else if key == "FLANNEL_SUBNET" {
        subnet := Some(value);
      } else if key == "FLANNEL_MTU" {
        var n := ParseUnsigned(value, 10, U32_LIMIT);
        if n.None? {
          return Err(BadMtu(value));
        }
        mtu := Some(n.value);
      } else if key == "FLANNEL_IPMASQ" {
        ipmasq := Some(value == "true");
      }
    }
    assert lines[..|lines|] == lines;
    if network.None? {
      return Err(MissingNetwork);
    }
    if subnet.None? {
      return Err(MissingSubnet);
    }
    if mtu.None? {
      return Err(MissingMtu);
    }
    return Ok(Env(network.value, subnet.value, mtu.value, match ipmasq case Some(b) => b case None => false));
  }

  /** Reading stops at the first line that is in error. */
  lemma {:induction false} FirstErrorStands(lines: seq<string>, n: nat)
    requires n <= |lines|
    ensures ReadLines(lines[..n]).Err? ==> ReadLines(lines) == ReadLines(lines[..n])
    decreases |lines| - n
  {
    if n == |lines| {
      assert lines[..n] == lines;
    } else {
      assert lines[..n + 1][..n] == lines[..n];
      FirstErrorStands(lines, n + 1);
    }
  }

  // ------------------------------------------------------------ what a text reads as

  /** A line that is neither blank nor an assignment. */
  predicate Malformed(line: string) {
    Trim(line) != "" && '=' !in Trim(line)
  }

  /** An assignment line, which may have blanks around the key, the value and the whole. */
  ghost predicate Assigns(line: string, key: string, value: string) {
    exists k, v :: '=' !in k && Trim(line) == k + "=" + v && Trim(k) == key && Trim(v) == value
  }

  ghost predicate Sets(line: string, key: string) {
    exists value :: Assigns(line, key, value)
  }

  /** An MTU line whose value is no unsigned 32-bit number. */
  ghost predicate BadMtuLine(line: string, value: string) {
    Assigns(line, "FLANNEL_MTU", value) && forall n: nat :: !Numeral(value, 10, 0x1_0000_0000, n)
  }

  ghost predicate BadLine(line: string) {
    Malformed(line) || exists value :: BadMtuLine(line, value)
  }

  /** What is reported for a bad line. */
  ghost predicate Complaint(line: string, e: ParseError) {
    || (Malformed(line) && e == MalformedLine(Trim(line)))
    || (e.BadMtu? && BadMtuLine(line, e.text))
  }

  /** The value of the last line that assigns the key. */
  ghost predicate LastValue(lines: seq<string>, key: string, value: string) {
    exists i ::
      0 <= i < |lines| && Assigns(lines[i], key, value) && forall j | i < j < |lines| :: !Sets(lines[j], key)
  }

  ghost predicate NeverSet(lines: seq<string>, key: string) {
    forall line | line in lines :: !Sets(line, key)
  }

  ghost predicate TellsText(lines: seq<string>, key: string, f: Option<string>) {
    match f case Some(v) => LastValue(lines, key, v) case None => NeverSet(lines, key)
  }

  ghost predicate TellsMtu(lines: seq<string>, f: Option<U32>) {
    match f
    case Some(n) => exists v :: LastValue(lines, "FLANNEL_MTU", v) && Numeral(v, 10, 0x1_0000_0000, n)
    case None => NeverSet(lines, "FLANNEL_MTU")
  }

  ghost predicate TellsFlag(lines: seq<string>, f: Option<bool>) {
    match f
    case Some(b) => exists v :: LastValue(lines, "FLANNEL_IPMASQ", v) && (b <==> v == "true")
    case None => NeverSet(lines, "FLANNEL_IPMASQ")
  }

  /** The fields are what the last lines for their keys assign. */
  ghost predicate Tells(lines: seq<string>, f: Fields) {
    && TellsText(lines, "FLANNEL_NETWORK", f.network) && TellsText(lines, "FLANNEL_SUBNET", f.subnet)
    && TellsMtu(lines, f.mtu) && TellsFlag(lines, f.ipmasq)
  }

  lemma {:induction false} SplitOnceIs(s: string)
    ensures match SplitOnce(s)
            case None => '=' !in s
            case Some(kv) => '=' !in kv.0 && s == kv.0 + "=" + kv.1
  {
    if s != [] && s[0] != '=' {
      SplitOnceIs(s[1..]);
      assert s == [s[0]] + s[1..];
    } else if s != [] {
      assert s == "" + "=" + s[1..];
    }
  }

  lemma {:induction false} SplitOnceFirst(k: string, v: string)
    requires '=' !in k
    ensures SplitOnce(k + "=" + v) == Some((k, v))
  {
    if k == [] {
      assert k + "=" + v == "=" + v;
    } else {
      assert (k + "=" + v)[1..] == k[1..] + "=" + v;
      SplitOnceFirst(k[1..], v);
      assert [k[0]] + k[1..] == k;
    }
  }

  /** A line assigns at most one value, to one key. */
  lemma AssignsOnce(line: string, key: string, value: string, key': string, value': string)
    requires Assigns(line, key, value) && Assigns(line, key', value')
    ensures key == key' && value == value'
  {
    var k, v :| '=' !in k && Trim(line) == k + "=" + v && Trim(k) == key && Trim(v) == value;
    var k', v' :| '=' !in k' && Trim(line) == k' + "=" + v' && Trim(k') == key' && Trim(v') == value';
    SplitOnceFirst(k, v);
    SplitOnceFirst(k', v');
  }

  /** Every line is blank, malformed, or assigns something. */
  lemma ThreeKinds(line: string) returns (key: string, value: string)
    ensures Trim(line) == "" ==> forall k, v :: !Assigns(line, k, v)
    ensures Malformed(line) ==> SplitOnce(Trim(line)) == None && forall k, v :: !Assigns(line, k, v)
    ensures Trim(line) != "" && !Malformed(line) ==>
              Assigns(line, key, value) && SplitOnce(Trim(line)).Some?
              && key == Trim(SplitOnce(Trim(line)).value.0) && value == Trim(SplitOnce(Trim(line)).value.1)
  {
    var s := Trim(line);
    SplitOnceIs(s);
    key, value := "", "";
    if SplitOnce(s).Some? {
      var k, v := SplitOnce(s).value.0, SplitOnce(s).value.1;
      key, value := Trim(k), Trim(v);
      assert s[|k|] == '=';
    }
    forall k, v | Assigns(line, k, v)
      ensures '=' in s
    {
      var x, y :| '=' !in x && s == x + "=" + y && Trim(x) == k && Trim(y) == v;
      assert s[|x|] == '=';
    }
  }

  /** One more line leaves a field as it was told if it does not set its key, and makes it its own otherwise. */
  lemma OneMoreLine(lines: seq<string>, line: string, key: string)
    ensures !Sets(line, key) ==>
              (NeverSet(lines + [line], key) <==> NeverSet(lines, key))
              && forall v :: LastValue(lines, key, v) ==> LastValue(lines + [line], key, v)
    ensures forall v :: Assigns(line, key, v) ==> LastValue(lines + [line], key, v)
  {
    var more := lines + [line];
    if !Sets(line, key) {
      forall x | x in more && Sets(x, key)
        ensures x in lines
      {
      }
      forall v | LastValue(lines, key, v)
        ensures LastValue(more, key, v)
      {
        var i :| 0 <= i < |lines| && Assigns(lines[i], key, v) && forall j | i < j < |lines| :: !Sets(lines[j], key);
        assert more[i] == lines[i];
        assert forall j | i < j < |more| :: if j < |lines| then more[j] == lines[j] else more[j] == line;
      }
    }
    forall v | Assigns(line, key, v)
      ensures LastValue(more, key, v)
    {
      assert more[|lines|] == line;
    }
  }

  lemma TextStays(lines: seq<string>, line: string, key: string, f: Option<string>)
    requires TellsText(lines, key, f) && !Sets(line, key)
    ensures TellsText(lines + [line], key, f)
  {
    OneMoreLine(lines, line, key);
  }

  lemma MtuStays(lines: seq<string>, line: string, f: Option<U32>)
    requires TellsMtu(lines, f) && !Sets(line, "FLANNEL_MTU")
    ensures TellsMtu(lines + [line], f)
  {
    hide Sets, LastValue, NeverSet, Numeral;
    OneMoreLine(lines, line, "FLANNEL_MTU");
  }

  lemma FlagStays(lines: seq<string>, line: string, f: Option<bool>)
    requires TellsFlag(lines, f) && !Sets(line, "FLANNEL_IPMASQ")
    ensures TellsFlag(lines + [line], f)
  {
    hide Sets, LastValue, NeverSet;
    OneMoreLine(lines, line, "FLANNEL_IPMASQ");
  }

  lemma ValueSet(lines: seq<string>, line: string, key: string, value: string)
    requires Assigns(line, key, value)
    ensures LastValue(lines + [line], key, value)
    ensures TellsText(lines + [line], key, Some(value))
    ensures key == "FLANNEL_IPMASQ" ==> TellsFlag(lines + [line], Some(value == "true"))
    ensures forall n: U32 | key == "FLANNEL_MTU" && Numeral(value, 10, 0x1_0000_0000, n) ::
              TellsMtu(lines + [line], Some(n))
  {
    hide Assigns, LastValue, NeverSet, Numeral;
    OneMoreLine(lines, line, key);
  }

  lemma SetsOnly(line: string, key: string, value: string, other: string)
    requires Assigns(line, key, value) && other != key
    ensures !Sets(line, other)
  {
    if v :| Assigns(line, other, v) {
      AssignsOnce(line, key, value, other, v);
    }
  }

  /** A good MTU line holds a number. */
  lemma GoodMtu(line: string, value: string)
    requires Assigns(line, "FLANNEL_MTU", value) && !BadLine(line)
    ensures ParseUnsigned(value, 10, U32_LIMIT).Some?
    ensures Numeral(value, 10, 0x1_0000_0000, ParseUnsigned(value, 10, U32_LIMIT).value)
  {
    assert !BadMtuLine(line, value);
    ParseUnsignedNone(value, 10, U32_LIMIT);
    ParseUnsignedIff(value, 10, U32_LIMIT, ParseUnsigned(value, 10, U32_LIMIT).value);
  }

  /** A line that sets no key of ours leaves what the fields tell. */
  lemma OtherLineTells(lines: seq<string>, f: Fields, line: string)
    requires Tells(lines, f) && !Sets(line, "FLANNEL_NETWORK") && !Sets(line, "FLANNEL_SUBNET")
    requires !Sets(line, "FLANNEL_MTU") && !Sets(line, "FLANNEL_IPMASQ")
    ensures Tells(lines + [line], f)
  {
    hide Sets, TellsText, TellsMtu, TellsFlag;
    TextStays(lines, line, "FLANNEL_NETWORK", f.network);
    TextStays(lines, line, "FLANNEL_SUBNET", f.subnet);
    MtuStays(lines, line, f.mtu);
    FlagStays(lines, line, f.ipmasq);
  }

  /** An assignment replaces what is told of its key. */
  lemma AssignmentTells(lines: seq<string>, f: Fields, line: string, key: string, value: string)
    requires Tells(lines, f) && Assigns(line, key, value) && !BadLine(line)
    ensures ReadLine(f, line).Ok? && Tells(lines + [line], ReadLine(f, line).value)
  {
    AssignsReads(f, line, key, value);
    forall other | other != key
      ensures !Sets(line, other)
    {
      SetsOnly(line, key, value, other);
    }
    if key == "FLANNEL_MTU" {
      GoodMtu(line, value);
    }
    hide Sets, TellsText, TellsMtu, TellsFlag, Assigns, Numeral, ReadLine, ParseUnsigned, BadLine;
    ValueSet(lines, line, key, value);
    if key == "FLANNEL_NETWORK" {
      TextStays(lines, line, "FLANNEL_SUBNET", f.subnet);
      MtuStays(lines, line, f.mtu);
      FlagStays(lines, line, f.ipmasq);
    } else if key == "FLANNEL_SUBNET" {
      TextStays(lines, line, "FLANNEL_NETWORK", f.network);
      MtuStays(lines, line, f.mtu);
      FlagStays(lines, line, f.ipmasq);
    } else if key == "FLANNEL_MTU" {
      TextStays(lines, line, "FLANNEL_NETWORK", f.network);
      TextStays(lines, line, "FLANNEL_SUBNET", f.subnet);
      FlagStays(lines, line, f.ipmasq);
    } else if key == "FLANNEL_IPMASQ" {
      TextStays(lines, line, "FLANNEL_NETWORK", f.network);
      TextStays(lines, line, "FLANNEL_SUBNET", f.subnet);
      MtuStays(lines, line, f.mtu);
    } else {
      OtherLineTells(lines, f, line);
    }
  }

  /** A line that is not bad is read, and the fields go on telling what the lines say. */
  lemma GoodLineTells(lines: seq<string>, f: Fields, line: string)
    requires Tells(lines, f) && !BadLine(line)
    ensures ReadLine(f, line).Ok? && Tells(lines + [line], ReadLine(f, line).value)
  {
    var key, value := ThreeKinds(line);
    if Trim(line) == "" {
      assert ReadLine(f, line) == Ok(f);
      hide Tells, Assigns;
      OtherLineTells(lines, f, line);
    } else {
      assert !Malformed(line);
      hide *;
      AssignmentTells(lines, f, line, key, value);
    }
  }

  /** A bad line is complained about. */
  lemma BadLineFails(f: Fields, line: string)
    requires BadLine(line)
    ensures ReadLine(f, line).Err? && Complaint(line, ReadLine(f, line).error)
  {
    var key, value := ThreeKinds(line);
    if !Malformed(line) {
      var v :| BadMtuLine(line, v);
      AssignsOnce(line, "FLANNEL_MTU", v, key, value);
      ParseUnsignedNone(value, 10, U32_LIMIT);
    }
  }

  /** Lines none of which is bad are all read. */
  lemma {:induction false} GoodLinesTell(lines: seq<string>)
    requires forall line | line in lines :: !BadLine(line)
    ensures ReadLines(lines).Ok? && Tells(lines, ReadLines(lines).value)
  {
    if lines != [] {
      var init, last := lines[..|lines| - 1], lines[|lines| - 1];
      assert lines == init + [last] && last in lines && forall line | line in init :: line in lines;
      hide BadLine, Tells, ReadLine;
      GoodLinesTell(init);
      GoodLineTells(init, ReadLines(init).value, last);
    }
  }

  /** The first bad line decides. */
  lemma FirstBadLineFails(lines: seq<string>, i: nat)
    requires i < |lines| && BadLine(lines[i]) && forall j | 0 <= j < i :: !BadLine(lines[j])
    ensures ReadLines(lines).Err? && Complaint(lines[i], ReadLines(lines).error)
  {
    hide BadLine, Complaint, ReadLine;
    GoodLinesTell(lines[..i]);
    assert lines[..i + 1][..i] == lines[..i];
    BadLineFails(ReadLines(lines[..i]).value, lines[i]);
    FirstErrorStands(lines, i + 1);
  }

  /**
   What a text reads as. The first bad line is reported, if there is one; otherwise the first
   of network, subnet and MTU that no line assigns; otherwise every field is the value of the
   last line that assigns it, and masquerading is off unless that line says "true".
   */
  lemma ParsedMeans(s: string)
    ensures var lines := Lines(s);
            && (forall i | 0 <= i < |lines| && BadLine(lines[i]) && (forall j | 0 <= j < i :: !BadLine(lines[j])) ::
                  Parsed(s).Err? && Complaint(lines[i], Parsed(s).error))
            && ((forall line | line in lines :: !BadLine(line)) ==>
                  if NeverSet(lines, "FLANNEL_NETWORK") then Parsed(s) == Err(MissingNetwork)
                  else if NeverSet(lines, "FLANNEL_SUBNET") then Parsed(s) == Err(MissingSubnet)
                  else if NeverSet(lines, "FLANNEL_MTU") then Parsed(s) == Err(MissingMtu)
                  else Parsed(s).Ok? && IsRead(lines, Parsed(s).value))
  {
    var lines := Lines(s);
    hide BadLine, Complaint, ReadLines;
    forall i | 0 <= i < |lines| && BadLine(lines[i]) && forall j | 0 <= j < i :: !BadLine(lines[j])
      ensures Parsed(s).Err? && Complaint(lines[i], Parsed(s).error)
    {
      FirstBadLineFails(lines, i);
    }
    if forall line | line in lines :: !BadLine(line) {
      GoodLinesTell(lines);
      FieldsRead(lines, ReadLines(lines).value);
    }
  }

  lemma {:induction false} FirstBad(lines: seq<string>, k: nat) returns (i: nat)
    requires k < |lines| && BadLine(lines[k])
    ensures i <= k && BadLine(lines[i]) && forall j | 0 <= j < i :: !BadLine(lines[j])
  {
    if j :| 0 <= j < k && BadLine(lines[j]) {
      i := FirstBad(lines, j);
    } else {
      i := k;
    }
  }

  /** A text is refused exactly if some line is bad, or network, subnet or MTU is never assigned. */
  lemma ParsedErrIff(s: string)
    ensures Parsed(s).Err?
            <==> || (exists line :: line in Lines(s) && BadLine(line))
                 || NeverSet(Lines(s), "FLANNEL_NETWORK") || NeverSet(Lines(s), "FLANNEL_SUBNET")
                 || NeverSet(Lines(s), "FLANNEL_MTU")
  {
    var lines := Lines(s);
    ParsedMeans(s);
    hide BadLine, NeverSet, Complaint, IsRead, Parsed;
    if line :| line in lines && BadLine(line) {
      var k: nat :| k < |lines| && lines[k] == line;
      var i := FirstBad(lines, k);
      assert Parsed(s).Err?;
    }
  }

  /** Each field is the value of the last line that assigns it. */
  ghost predicate IsRead(lines: seq<string>, e: Env) {
    && LastValue(lines, "FLANNEL_NETWORK", e.network) && LastValue(lines, "FLANNEL_SUBNET", e.subnet)
    && (exists v :: LastValue(lines, "FLANNEL_MTU", v) && Numeral(v, 10, 0x1_0000_0000, e.mtu))
    && (e.ipmasq <==> LastValue(lines, "FLANNEL_IPMASQ", "true"))
  }

  /** A key has one last value, if it is ever assigned. */
  lemma OneLastValue(lines: seq<string>, key: string, v: string, v': string)
    requires LastValue(lines, key, v)
    ensures !NeverSet(lines, key) && (LastValue(lines, key, v') ==> v == v')
  {
    hide Assigns;
    var i: nat :| i < |lines| && Assigns(lines[i], key, v) && forall j | i < j < |lines| :: !Sets(lines[j], key);
    assert lines[i] in lines && Sets(lines[i], key);
    if LastValue(lines, key, v') {
      var k: nat :| k < |lines| && Assigns(lines[k], key, v') && forall j | k < j < |lines| :: !Sets(lines[j], key);
      assert Sets(lines[k], key);
      assert i == k;
      AssignsOnce(lines[i], key, v, key, v');
    }
  }

  lemma FieldsRead(lines: seq<string>, f: Fields)
    requires Tells(lines, f)
    ensures f.network.Some? <==> !NeverSet(lines, "FLANNEL_NETWORK")
    ensures f.subnet.Some? <==> !NeverSet(lines, "FLANNEL_SUBNET")
    ensures f.mtu.Some? <==> !NeverSet(lines, "FLANNEL_MTU")
    ensures Finish(f).Ok? ==> IsRead(lines, Finish(f).value)
  {
    hide LastValue, NeverSet, Numeral;
    forall key, v | LastValue(lines, key, v)
      ensures !NeverSet(lines, key)
    {
      OneLastValue(lines, key, v, v);
    }
    if v :| f.ipmasq.Some? && LastValue(lines, "FLANNEL_IPMASQ", v) && (f.ipmasq.value <==> v == "true") {
      OneLastValue(lines, "FLANNEL_IPMASQ", v, "true");
    }
  }

  // ------------------------------------------------------------ what was written is read

  /** The text of the file, in full. */
  lemma RenderedText(e: Env)
    ensures Render(e)
            == Join(["FLANNEL_NETWORK=" + e.network, "FLANNEL_SUBNET=" + e.subnet, "FLANNEL_MTU=" + Decimal(e.mtu),
                     "FLANNEL_IPMASQ=" + (if e.ipmasq then "true" else "false"), ""], '\n')
  {
    hide Decimal, Join;
    var lines := RenderedLines(e);
    assert "FLANNEL_NETWORK" + "=" == "FLANNEL_NETWORK=" && "FLANNEL_SUBNET" + "=" == "FLANNEL_SUBNET=";
    assert "FLANNEL_MTU" + "=" == "FLANNEL_MTU=" && "FLANNEL_IPMASQ" + "=" == "FLANNEL_IPMASQ=";
    JoinFour(lines[0], lines[1], lines[2], lines[3]);
  }

  lemma {:induction false} SplitOnceParts(s: string)
    ensures SplitOnce(s).Some? ==> forall c | c in SplitOnce(s).value.0 || c in SplitOnce(s).value.1 :: c in s
  {
    if s != [] {
      SplitOnceParts(s[1..]);
    }
  }

  /** Only what trimming leaves of a line matters. */
  lemma {:induction false} OnlyTrimmedMatters(x: seq<string>, y: seq<string>)
    requires |x| == |y| && forall i | 0 <= i < |x| :: Trim(x[i]) == Trim(y[i])
    ensures ReadLines(x) == ReadLines(y)
  {
    if x != [] {
      OnlyTrimmedMatters(x[..|x| - 1], y[..|y| - 1]);
    }
  }

  lemma JoinedLines(lines: seq<string>)
    requires lines != [] && forall line | line in lines :: '\n' !in line
    ensures var init, last := StripEach(lines[..|lines| - 1]), lines[|lines| - 1];
            Lines(Join(lines, '\n')) == if last == "" then init else init + [last]
  {
    hide Join, Split, StripEach;
    SplitJoin(lines, '\n');
    assert Split(Join(lines, '\n'), '\n') == lines;
  }

  lemma StripSameTrim(lines: seq<string>)
    requires lines != []
    ensures var full := StripEach(lines[..|lines| - 1]) + [lines[|lines| - 1]];
            |full| == |lines| && forall i | 0 <= i < |lines| :: Trim(full[i]) == Trim(lines[i])
  {
    var full := StripEach(lines[..|lines| - 1]) + [lines[|lines| - 1]];
    forall i | 0 <= i < |lines|
      ensures Trim(full[i]) == Trim(lines[i])
    {
      TrimStripCr(lines[i]);
    }
  }

  lemma BlankLineIgnored(lines: seq<string>)
    requires lines != [] && lines[|lines| - 1] == ""
    ensures ReadLines(lines) == ReadLines(lines[..|lines| - 1])
  {
    assert Trim("") == "";
  }

  /** Reading a joined text is reading the lines that were joined. */
  lemma ParsedJoin(lines: seq<string>)
    requires lines != [] && forall line | line in lines :: '\n' !in line
    ensures Parsed(Join(lines, '\n')) == match ReadLines(lines) case Err(e) => Err(e) case Ok(f) => Finish(f)
  {
    var init, last := lines[..|lines| - 1], lines[|lines| - 1];
    var full := StripEach(init) + [last];
    JoinedLines(lines);
    StripSameTrim(lines);
    hide Join, Lines, StripEach, Trim, ReadLine, Finish;
    OnlyTrimmedMatters(full, lines);
    if last == "" {
      assert full[..|full| - 1] == StripEach(init);
      BlankLineIgnored(full);
    }
  }

  function KeyOf(i: nat): string
    requires i < 4
  {
    if i == 0 then "FLANNEL_NETWORK"
    else if i == 1 then "FLANNEL_SUBNET"
    else if i == 2 then "FLANNEL_MTU"
    else "FLANNEL_IPMASQ"
  }

  predicate Known(key: string) {
    key == KeyOf(0) || key == KeyOf(1) || key == KeyOf(2) || key == KeyOf(3)
  }

  lemma AssignsReads(f: Fields, line: string, key: string, value: string)
    requires Assigns(line, key, value)
    ensures ReadLine(f, line) ==
            if key == "FLANNEL_NETWORK" then Ok(f.(network := Some(value)))
            else if key == "FLANNEL_SUBNET" then Ok(f.(subnet := Some(value)))
            else if key == "FLANNEL_MTU" then
              (match ParseUnsigned(value, 10, U32_LIMIT)
               case Some(n) => Ok(f.(mtu := Some(n)))
               case None => Err(BadMtu(value)))
            else if key == "FLANNEL_IPMASQ" then Ok(f.(ipmasq := Some(value == "true")))
            else Ok(f)
  {
    var k, v :| '=' !in k && Trim(line) == k + "=" + v && Trim(k) == key && Trim(v) == value;
    SplitOnceFirst(k, v);
    assert Trim(line)[|k|] == '=';
    hide SplitOnce, Trim, ParseUnsigned;
  }

  function ValueOf(e: Env, i: nat): string
    requires i < 4
  {
    if i == 0 then e.network else if i == 1 then e.subnet else if i == 2 then Decimal(e.mtu) else Flag(e.ipmasq)
  }

  /** A line that assigns the i-th of e's values to its key. */
  ghost predicate Says(line: string, e: Env, i: nat)
    requires i < 4
  {
    Assigns(line, KeyOf(i), ValueOf(e, i))
  }

  /** A line that says nothing untrue of e: blank, one of its four assignments, or an unknown key's. */
  ghost predicate Fits(line: string, e: Env) {
    || Trim(line) == ""
    || (exists i: nat | i < 4 :: Says(line, e, i))
    || (exists key, value :: !Known(key) && Assigns(line, key, value))
  }

  predicate Agree(f: Fields, e: Env) {
    && (f.network == None || f.network == Some(e.network))
    && (f.subnet == None || f.subnet == Some(e.subnet))
    && (f.mtu == None || f.mtu == Some(e.mtu))
    && (f.ipmasq == None || f.ipmasq == Some(e.ipmasq))
  }

  predicate HasField(f: Fields, i: nat)
    requires i < 4
  {
    if i == 0 then f.network.Some?
    else if i == 1 then f.subnet.Some?
    else if i == 2 then f.mtu.Some?
    else f.ipmasq.Some?
  }

  /** A fitting line is read without error and contradicts nothing. */
  lemma FittingLine(f: Fields, line: string, e: Env)
    requires Agree(f, e) && Fits(line, e)
    ensures ReadLine(f, line).Ok? && Agree(ReadLine(f, line).value, e)
  {
    if Trim(line) == "" {
    } else if i: nat :| i < 4 && Says(line, e, i) {
      SayingLine(f, line, e, i);
    } else {
      hide Trim, Assigns, Says, ReadLine;
      var key, value :| !Known(key) && Assigns(line, key, value);
      AssignsReads(f, line, key, value);
    }
  }

  lemma SayingLine(f: Fields, line: string, e: Env, i: nat)
    requires i < 4 && Says(line, e, i)
    ensures ReadLine(f, line).Ok? && HasField(ReadLine(f, line).value, i)
    ensures Agree(f, e) ==> Agree(ReadLine(f, line).value, e)
  {
    DecimalRoundTrip(e.mtu, U32_LIMIT);
    hide Trim, Decimal, ParseUnsigned, Assigns, ReadLine;
    AssignsReads(f, line, KeyOf(i), ValueOf(e, i));
  }

  lemma FieldsStay(f: Fields, line: string, i: nat)
    requires i < 4 && HasField(f, i) && ReadLine(f, line).Ok?
    ensures HasField(ReadLine(f, line).value, i)
  {
    hide Trim, SplitOnce, ParseUnsigned;
  }

  ghost predicate AllFit(lines: seq<string>, e: Env) {
    forall j | 0 <= j < |lines| :: '\n' !in lines[j] && Fits(lines[j], e)
  }

  lemma {:induction false} FittingLines(lines: seq<string>, e: Env)
    requires AllFit(lines, e)
    ensures ReadLines(lines).Ok? && Agree(ReadLines(lines).value, e)
  {
    hide Fits, ReadLine;
    if lines == [] {
      assert ReadLines(lines) == Ok(NO_FIELDS);
    } else {
      var init, last := lines[..|lines| - 1], lines[|lines| - 1];
      FittingLines(init, e);
      FittingLine(ReadLines(init).value, last, e);
    }
  }

  /** The field that some line assigns is there at the end. */
  lemma {:induction false} SaidFieldStays(lines: seq<string>, e: Env, i: nat, k: nat)
    requires i < 4 && k < |lines| && ReadLines(lines).Ok? && Says(lines[k], e, i)
    ensures HasField(ReadLines(lines).value, i)
  {
    hide Says, HasField, ReadLine;
    var init, last := lines[..|lines| - 1], lines[|lines| - 1];
    var f := ReadLines(init).value;
    if k == |init| {
      SayingLine(f, last, e, i);
    } else {
      SaidFieldStays(init, e, i, k);
      FieldsStay(f, last, i);
    }
  }

  ghost predicate SomeSays(lines: seq<string>, e: Env, i: nat)
    requires i < 4
  {
    exists k: nat :: k < |lines| && Says(lines[k], e, i)
  }

  /**
   Robust reading: any text whose lines fit the values, in any order and any number, with
   blank lines, blanks around, and unknown assignments, reads as those values, if the
   three required keys occur and the flag's key occurs or the flag is off.
   */
  lemma FittingTextReadsBack(lines: seq<string>, e: Env)
    requires lines != [] && AllFit(lines, e)
    requires forall i: nat | i < 3 || (i == 3 && e.ipmasq) :: SomeSays(lines, e, i)
    ensures Parsed(Join(lines, '\n')) == Ok(e)
  {
    assert forall line | line in lines :: '\n' !in line;
    hide Fits, AllFit, Says, Parsed, Join, ReadLines, Agree, HasField, Finish;
    ParsedJoin(lines);
    FittingLines(lines, e);
    var f := ReadLines(lines).value;
    forall i: nat | i < 3 || (i == 3 && e.ipmasq)
      ensures HasField(f, i)
    {
      assert SomeSays(lines, e, i);
      var k: nat :| k < |lines| && Says(lines[k], e, i);
      SaidFieldStays(lines, e, i, k);
    }
    AllFieldsFinish(f, e);
  }

  lemma AllFieldsFinish(f: Fields, e: Env)
    requires Agree(f, e) && forall i: nat | i < 3 || (i == 3 && e.ipmasq) :: HasField(f, i)
    ensures Finish(f) == Ok(e)
  {
    assert HasField(f, 0) && HasField(f, 1) && HasField(f, 2) && (e.ipmasq ==> HasField(f, 3));
  }

  // ------------------------------------------------------------------- the round trip

  predicate PlainText(s: string) {
    '\n' !in s && Trimmed(s)
  }

  lemma JoinFour(a: string, b: string, c: string, d: string)
    ensures Join([a, b, c, d, ""], '\n') == a + "\n" + b + "\n" + c + "\n" + d + "\n"
  {
    assert [a, b, c, d, ""][1..] == [b, c, d, ""] && [b, c, d, ""][1..] == [c, d, ""];
    assert [c, d, ""][1..] == [d, ""] && [d, ""][1..] == [""];
    assert Join([d, ""], '\n') == d + "\n";
    assert Join([c, d, ""], '\n') == c + "\n" + d + "\n";
    assert Join([b, c, d, ""], '\n') == b + "\n" + c + "\n" + d + "\n";
  }

  lemma KeysPlain(i: nat)
    requires i < 4
    ensures PlainText(KeyOf(i)) && KeyOf(i) != "" && '=' !in KeyOf(i)
  {
  }

  lemma ValuesPlain(e: Env, i: nat)
    requires i < 4 && PlainText(e.network) && PlainText(e.subnet)
    ensures PlainText(ValueOf(e, i))
  {
    var d := Decimal(e.mtu);
    assert d[0] in d && d[|d| - 1] in d;
    assert forall c | '0' <= c <= '9' :: !IsBlank(c);
  }

  /** A rendered line, with any blanks put around it, still assigns its value. */
  lemma PaddedLineAssigns(e: Env, i: nat, a: string, b: string)
    requires i < 4 && PlainText(e.network) && PlainText(e.subnet) && AllBlank(a) && AllBlank(b)
    ensures Says(a + RenderedLines(e)[i] + b, e, i) && '\n' !in RenderedLines(e)[i]
  {
    var key, value := KeyOf(i), ValueOf(e, i);
    var line := RenderedLines(e)[i];
    assert line == Assignment(key, value);
    KeysPlain(i);
    ValuesPlain(e, i);
    hide Flag, Decimal, IsBlank, ValueOf, KeyOf;
    AssignmentPlain(key, value);
    TrimGivesTrimmed(key);
    TrimGivesTrimmed(value);
    TrimPadded(a, line, b);
  }

  lemma AssignmentPlain(key: string, value: string)
    requires PlainText(key) && key != "" && PlainText(value)
    ensures PlainText(Assignment(key, value))
  {
    assert !IsBlank('=');
  }

  lemma RenderedLineFits(e: Env, i: nat)
    requires i < 4 && PlainText(e.network) && PlainText(e.subnet)
    ensures var line := RenderedLines(e)[i]; Says(line, e, i) && '\n' !in line && Fits(line, e)
  {
    assert |RenderedLines(e)| == 4;
    hide *;
    var line, blank: string := RenderedLines(e)[i], [];
    assert AllBlank(blank) && blank + line + blank == line by {
      EmptyPads(line);
    }
    PaddedLineAssigns(e, i, blank, blank);
    SayingFits(line, e, i);
  }

  lemma EmptyPads(s: string)
    ensures AllBlank([]) && [] + s + [] == s
  {
  }

  lemma RenderedLinesSay(e: Env, lines: seq<string>)
    requires PlainText(e.network) && PlainText(e.subnet) && lines == RenderedLines(e) + [""]
    ensures forall i: nat | i < 4 :: Says(lines[i], e, i)
    ensures AllFit(lines, e)
  {
    assert |RenderedLines(e)| == 4;
    hide Says, RenderedLines, PlainText, Fits;
    forall i: nat | i < 4
      ensures Says(lines[i], e, i) && '\n' !in lines[i] && Fits(lines[i], e)
    {
      RenderedLineFits(e, i);
    }
    EmptyFits(e);
    assert lines[4] == "";
  }

  lemma SayingFits(line: string, e: Env, i: nat)
    requires i < 4 && Says(line, e, i)
    ensures Fits(line, e)
  {
  }

  lemma EmptyFits(e: Env)
    ensures Fits("", e)
  {
    assert Trim("") == "";
  }

  lemma RoundTripIfPlain(e: Env)
    requires PlainText(e.network) && PlainText(e.subnet)
    ensures Parsed(Render(e)) == Ok(e)
  {
    var lines := RenderedLines(e) + [""];
    JoinFour(lines[0], lines[1], lines[2], lines[3]);
    assert lines == [lines[0], lines[1], lines[2], lines[3], ""];
    assert Render(e) == Join(lines, '\n');
    RenderedLinesSay(e, lines);
    hide Render, Join, Parsed, PlainText, AllFit, Says, RenderedLines;
    forall i: nat | i < 4
      ensures SomeSays(lines, e, i)
    {
      assert Says(lines[i], e, i);
    }
    FittingTextReadsBack(lines, e);
  }

  predicate PlainFields(f: Fields) {
    (f.network.Some? ==> PlainText(f.network.value)) && (f.subnet.Some? ==> PlainText(f.subnet.value))
  }

  lemma ReadLinePlain(f: Fields, line: string)
    requires PlainFields(f) && '\n' !in line
    ensures ReadLine(f, line).Ok? ==> PlainFields(ReadLine(f, line).value)
  {
    TrimGivesTrimmed(line);
    SplitOnceParts(Trim(line));
    if SplitOnce(Trim(line)).Some? {
      TrimGivesTrimmed(SplitOnce(Trim(line)).value.1);
    }
    hide Trim, Trimmed, SplitOnce, ParseUnsigned;
  }

  /** Whatever text is read, the network and the subnet read from it are plain. */
  lemma {:induction false} ReadValuesPlain(lines: seq<string>)
    requires forall line | line in lines :: '\n' !in line
    ensures ReadLines(lines).Ok? ==> PlainFields(ReadLines(lines).value)
  {
    if lines != [] {
      var init, last := lines[..|lines| - 1], lines[|lines| - 1];
      assert last in lines && forall line | line in init :: line in lines;
      hide ReadLine, PlainFields;
      ReadValuesPlain(init);
      if ReadLines(init).Ok? {
        ReadLinePlain(ReadLines(init).value, last);
      }
    } else {
      assert ReadLines(lines) == Ok(NO_FIELDS);
    }
  }

  /**
   The plugin reads back what the daemon wrote exactly if network and subnet are plain: no
   newline, no blanks around.
   */
  lemma RoundTripIffPlain(e: Env)
    ensures Parsed(Render(e)) == Ok(e) <==> PlainText(e.network) && PlainText(e.subnet)
  {
    if PlainText(e.network) && PlainText(e.subnet) {
      RoundTripIfPlain(e);
    } else {
      LinesHaveNoNewline(Render(e));
      ReadValuesPlain(Lines(Render(e)));
    }
  }
}
