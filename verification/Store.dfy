/**
 The lease directory of one network: a file per leased address naming its owner, and
 the last reserved address.
 */
module Store {
  import opened Wrappers
  import opened Ipv4
  import opened Text

  type Leases = map<Addr, string>

  /** The directory's lease files, and what its cursor file reads as. */
  datatype Dir = Dir(leases: Leases, cursor: Option<Addr>)

  /** A file write that succeeds, or fails and may leave some text behind. */
  datatype Write = Written | NotWritten(left: Option<string>)

  datatype CursorWrite = CursorWritten | CursorLost(readsAs: Option<Addr>)

  function LeaseText(cid: string, ifname: string): string {
    cid + ['\n'] + ifname
  }

  function LineOrEmpty(lines: seq<string>, i: nat): string {
    if i < |lines| then lines[i] else ""
  }

  /** Whether release takes a lease file for the pair's: missing lines read as empty. */
  predicate ReleaseMatches(content: string, cid: string, ifname: string) {
    var lines := Lines(content);
    LineOrEmpty(lines, 0) == cid && LineOrEmpty(lines, 1) == ifname
  }

  /** Whether has takes a lease file for the pair's: both lines must be there. */
  predicate HasMatches(content: string, cid: string, ifname: string) {
    var lines := Lines(content);
    |lines| >= 2 && lines[0] == cid && lines[1] == ifname
  }

  /** The addresses that releasing a pair frees. */
  function Owned(leases: Leases, cid: string, ifname: string): set<Addr> {
    set ip | ip in leases && ReleaseMatches(leases[ip], cid, ifname)
  }

  function AfterLease(leases: Leases, ip: Addr, text: string, write: Write): Leases {
    match write
    case Written => leases[ip := text]
    case NotWritten(Some(left)) => leases[ip := left]
    case NotWritten(None) => leases
  }

  /** Reserving writes the lease, then the cursor; a failed first write skips the second. */
  function Reserved(d: Dir, ip: Addr, cid: string, ifname: string, lease: Write, cursor: CursorWrite): (Dir, bool) {
    var leases := AfterLease(d.leases, ip, LeaseText(cid, ifname), lease);
    if lease != Written then (Dir(leases, d.cursor), false)
    else
      match cursor
      case CursorWritten => (Dir(leases, Some(ip)), true)
      case CursorLost(readsAs) => (Dir(leases, readsAs), false)
  }

  class Store {
    var leases: Leases
    var cursor: Option<Addr>

    ghost function Contents(): Dir
      reads this
    {
      Dir(leases, cursor)
    }

    method Leased() returns (found: set<Addr>)
      ensures found == leases.Keys
    {
      found := {};
      var entries := leases.Keys;
      while entries != {}
        invariant entries <= leases.Keys && found == leases.Keys - entries
        decreases |entries|
      {
        var ip :| ip in entries;
        entries := entries - {ip};
        found := found + {ip};
      }
    }

    method Reserve(ip: Addr, cid: string, ifname: string, lease: Write, cursorWrite: CursorWrite) returns (ok: bool)
      modifies this
      ensures (Contents(), ok) == Reserved(old(Contents()), ip, cid, ifname, lease, cursorWrite)
    {
      match lease {
        case Written =>
          leases := leases[ip := LeaseText(cid, ifname)];
        case NotWritten(left) =>
          if left.Some? {
            leases := leases[ip := left.value];
          }
          return false;
      }
      match cursorWrite {
        case CursorWritten =>
          cursor := Some(ip);
          return true;
        case CursorLost(readsAs) =>
          cursor := readsAs;
          return false;
      }
    }

    /** Removes the pair's lease files in directory order, stopping at one that cannot be removed. */
    method Release(cid: string, ifname: string, stuck: set<Addr>) returns (ok: bool, ghost gone: set<Addr>)
      modifies this`leases
      ensures leases == old(leases) - gone && gone <= Owned(old(leases), cid, ifname) - stuck
      ensures ok <==> Owned(old(leases), cid, ifname) !! stuck
      ensures ok ==> gone == Owned(old(leases), cid, ifname)
    {
      hide Lines, LineOrEmpty;
      gone := {};
      ghost var before, owned := leases, Owned(leases, cid, ifname);
      var entries := leases.Keys;
      while entries != {}
        invariant entries <= before.Keys
        invariant gone == owned - entries && gone !! stuck
        invariant leases == before - gone
        decreases |entries|
      {
        var ip :| ip in entries;
        entries := entries - {ip};
        var lines := Lines(leases[ip]);
        var owner := LineOrEmpty(lines, 0);
        var name := LineOrEmpty(lines, 1);
        assert ip in owned <==> owner == cid && name == ifname;
        if owner == cid && name == ifname {
          if ip in stuck {
            return false, gone;
          }
          leases := leases - {ip};
          gone := gone + {ip};
        }
      }
      return true, gone;
    }

    method Has(cid: string, ifname: string) returns (found: bool)
      ensures found <==> exists ip :: ip in leases && HasMatches(leases[ip], cid, ifname)
    {
      var entries := leases.Keys;
      while entries != {}
        invariant entries <= leases.Keys
        invariant forall ip | ip in leases && ip !in entries :: !HasMatches(leases[ip], cid, ifname)
        decreases |entries|
      {
        var ip :| ip in entries;
        entries := entries - {ip};
        var lines := Lines(leases[ip]);
        if |lines| > 0 && lines[0] == cid && |lines| > 1 && lines[1] == ifname {
          return true;
        }
      }
      return false;
    }
  }

  // ------------------------------------------------------------------- lease texts

  /** A container ID that a lease file gives back. */
  predicate PlainId(cid: string) {
    '\n' !in cid && (cid != [] ==> cid[|cid| - 1] != '\r')
  }

  lemma LeaseLines(cid: string, ifname: string)
    requires '\n' !in cid && '\n' !in ifname
    ensures Lines(LeaseText(cid, ifname)) == [StripCr(cid)] + (if ifname == "" then [] else [ifname])
  {
    SplitFirst(cid, '\n', ifname);
    SplitNoSep(ifname, '\n');
    assert Split(LeaseText(cid, ifname), '\n') == [cid, ifname];
    assert [cid, ifname][..1] == [cid];
  }

  /** A lease text has a first line: the container ID, without a carriage return at its end. */
  lemma FirstLineOfLease(cid: string, ifname: string)
    ensures Lines(LeaseText(cid, ifname)) != []
    ensures '\n' !in cid ==> Lines(LeaseText(cid, ifname))[0] == StripCr(cid)
  {
    var pieces := Split(LeaseText(cid, ifname), '\n');
    SplitHas(cid, '\n', ifname);
    if '\n' !in cid {
      SplitFirst(cid, '\n', ifname);
      assert pieces[..|pieces| - 1][0] == cid;
    }
  }

  /**
   Whose a lease file is, by its text: a missing line reads as empty for release but not for
   has, and the carriage return of a line that ends in a newline does not count.
   */
  lemma OwnerLines(a: string, b: string, rest: string, cid: string, ifname: string)
    requires '\n' !in a && '\n' !in b
    ensures ReleaseMatches(a, cid, ifname) <==> cid == a && ifname == ""
    ensures ReleaseMatches(a + "\n" + b, cid, ifname) <==> cid == StripCr(a) && ifname == b
    ensures ReleaseMatches(a + "\n" + (b + "\n" + rest), cid, ifname) <==> cid == StripCr(a) && ifname == StripCr(b)
    ensures !HasMatches(a, cid, ifname)
    ensures HasMatches(a + "\n" + b, cid, ifname) <==> cid == StripCr(a) && ifname == b != ""
    ensures HasMatches(a + "\n" + (b + "\n" + rest), cid, ifname) <==> cid == StripCr(a) && ifname == StripCr(b)
  {
    hide Lines, StripCr;
    LinesOf(a, b);
    LinesOf(b, rest);
    LinesOf(a, b + "\n" + rest);
  }

  lemma {:induction false} SplitHas(a: string, sep: char, b: string)
    ensures |Split(a + [sep] + b, sep)| >= 2
  {
    if a == [] {
      assert [sep] + b == [] + [sep] + b;
      assert ([] + [sep] + b)[1..] == b;
    } else {
      assert (a + [sep] + b)[1..] == a[1..] + [sep] + b;
      SplitHas(a[1..], sep, b);
    }
  }

  /** A written lease belongs to the pair it was written for, exactly if both texts are plain. */
  lemma LeaseOwnerRoundTrip(cid: string, ifname: string)
    ensures ReleaseMatches(LeaseText(cid, ifname), cid, ifname) <==> PlainId(cid) && '\n' !in ifname
  {
    LinesHaveNoNewline(LeaseText(cid, ifname));
    FirstLineOfLease(cid, ifname);
    var lines := Lines(LeaseText(cid, ifname));
    if '\n' !in cid && '\n' !in ifname {
      LeaseLines(cid, ifname);
    }
    assert lines[0] in lines;
    assert |lines| > 1 ==> lines[1] in lines;
  }

  /** A written lease belongs to no other plain pair. */
  lemma LeaseOwnerUnique(cid: string, ifname: string, cid': string, ifname': string)
    requires PlainId(cid) && '\n' !in ifname
    requires ReleaseMatches(LeaseText(cid, ifname), cid', ifname')
    ensures cid' == cid && ifname' == ifname
  {
    LeaseLines(cid, ifname);
  }

  /** For a named interface, has is true exactly if release would free something. */
  lemma HasIffReleaseFrees(leases: Leases, cid: string, ifname: string)
    requires ifname != ""
    ensures (exists ip :: ip in leases && HasMatches(leases[ip], cid, ifname)) <==> Owned(leases, cid, ifname) != {}
  {
    assert forall ip | ip in leases :: HasMatches(leases[ip], cid, ifname) <==> ip in Owned(leases, cid, ifname);
  }

  /** For an unnamed interface has never finds a written lease, though release frees it. */
  lemma UnnamedInterfaceDiffers(leases: Leases, ip: Addr, cid: string)
    requires ip in leases && leases[ip] == LeaseText(cid, "") && PlainId(cid)
    ensures ip in Owned(leases, cid, "") && !HasMatches(leases[ip], cid, "")
  {
    LeaseLines(cid, "");
    LeaseOwnerRoundTrip(cid, "");
  }
}
