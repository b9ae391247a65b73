/**
 Whole runs of the host-local plugin on one directory, one command after the other as
 the lock orders them, each with whatever goes wrong in it: round-robin reuse, exactly
 which lost cursor writes break it, and conservation of leases.
 */
module IpamRuns {
  import opened Wrappers
  import opened Ipv4
  import opened Alloc
  import opened Store
  import opened HostLocal
  import Text

  /** A DEL stops part of the way if a file cannot be removed; `left` are the lease files it did not get to. */
  datatype Op =
    | AddOp(cid: string, ifname: string, f: Faults)
    | DelOp(cid: string, ifname: string, left: set<Addr>)

  /** An ADD that gets as far as looking for a free address. */
  predicate Searches(op: Op) {
    op.AddOp? && !op.f.open && !op.f.lock && !op.f.list
  }

  /** The address an ADD finds. */
  ghost function Picked(a: Allocator, d: Dir, op: Op): Option<Addr> {
    if Searches(op) then NextFree(a, d.leases.Keys, d.cursor) else None
  }

  /** The address whose lease file an ADD writes in full. */
  ghost function Leased(a: Allocator, d: Dir, op: Op): Option<Addr> {
    if op.AddOp? && op.f.lease == Written then Picked(a, d, op) else None
  }

  /** The address an operation hands out: its lease and the cursor are both written. */
  ghost function Given(a: Allocator, d: Dir, op: Op): Option<Addr> {
    if op.AddOp? && op.f.cursor == CursorWritten then Leased(a, d, op) else None
  }

  /** The directory after an operation. */
  ghost function Do(a: Allocator, d: Dir, op: Op): Dir {
    match op
    case DelOp(cid, ifname, left) => Dir(d.leases - (Owned(d.leases, cid, ifname) - left), d.cursor)
    case AddOp(cid, ifname, f) =>
      match Picked(a, d, op)
      case None => d
      case Some(ip) => Reserved(d, ip, cid, ifname, f.lease, f.cursor).0
  }

  /** The ADD command with any faults is this operation: same directory, same address. */
  lemma AddIsCommand(d: Dir, ranges: seq<seq<Range>>, cid: string, ifname: string, f: Faults)
    requires AllocatorFor(ranges).Ok?
    ensures var a, op := AllocatorFor(ranges).value, AddOp(cid, ifname, f);
            var (d', r) := AddOutcome(d, ranges, cid, ifname, f);
            && d' == Do(a, d, op)
            && Given(a, d, op) == match r case Ok(grant) => Some(grant.ip) case Err(_) => None
  {
  }

  /** The DEL command is this operation, whichever of the pair's files it removed. */
  lemma DelIsCommand(a: Allocator, d: Dir, cid: string, ifname: string, gone: set<Addr>)
    requires gone <= Owned(d.leases, cid, ifname)
    ensures Do(a, d, DelOp(cid, ifname, Owned(d.leases, cid, ifname) - gone)) == Dir(d.leases - gone, d.cursor)
  {
    var owned := Owned(d.leases, cid, ifname);
    assert owned - (owned - gone) == gone;
  }

  /** A run with a fixed subnet: each directory follows from the one before. */
  ghost predicate Run(a: Allocator, dirs: seq<Dir>, ops: seq<Op>) {
    |dirs| == |ops| + 1 && forall k | 0 <= k < |ops| :: dirs[k + 1] == Do(a, dirs[k], ops[k])
  }

  lemma OneMore(a: Allocator, dirs: seq<Dir>, ops: seq<Op>, op: Op)
    requires Run(a, dirs, ops)
    ensures Run(a, dirs + [Do(a, dirs[|ops|], op)], ops + [op])
  {
    hide Do;
  }

  // ---------------------------------------------------------------------- round robin

  /** An ADD that wrote its lease and lost the cursor. */
  ghost predicate LosesCursor(a: Allocator, d: Dir, op: Op) {
    Leased(a, d, op).Some? && op.f.cursor != CursorWritten
  }

  /** Handed out or found leased at some ADD among operations lo to hi (hi excluded). */
  ghost predicate Seen(a: Allocator, dirs: seq<Dir>, ops: seq<Op>, lo: nat, hi: nat, h: Addr)
    requires Run(a, dirs, ops) && hi <= |ops|
  {
    exists k :: lo <= k < hi && Searches(ops[k]) && (Given(a, dirs[k], ops[k]) == Some(h) || h in dirs[k].leases)
  }

  /** What has not been seen since operation lo still lies ahead of the cursor on its way to x. */
  ghost predicate Swept(a: Allocator, dirs: seq<Dir>, ops: seq<Op>, lo: nat, hi: nat, x: Addr)
    requires Run(a, dirs, ops) && hi <= |ops|
  {
    forall h: Addr | Usable(a, h) && h != x :: Accounted(a, dirs, ops, lo, hi, x, h)
  }

  /** Seen, or still ahead of the cursor on its way to x. */
  ghost predicate Accounted(a: Allocator, dirs: seq<Dir>, ops: seq<Op>, lo: nat, hi: nat, x: Addr, h: Addr)
    requires Run(a, dirs, ops) && hi <= |ops|
  {
    Seen(a, dirs, ops, lo, hi, h) || Precedes(a, dirs[hi].cursor, h, x)
  }

  /** Going round, of two addresses one comes first, and passing the first keeps the order of the rest. */
  lemma GoingRound(a: Allocator, last: Option<Addr>, c: Addr, h: Addr, x: Addr)
    requires Usable(a, c) && Usable(a, h) && Usable(a, x) && c != h && c != x
    ensures !(Precedes(a, last, c, h) && Precedes(a, last, h, c))
    ensures Precedes(a, last, c, h) && Precedes(a, last, h, x) ==> Precedes(a, Some(c), h, x)
    ensures h != x && Precedes(a, last, c, x) && !Precedes(a, last, h, x) ==> !Precedes(a, Some(c), h, x)
    ensures Precedes(a, Some(x), h, x) <==> h != x
  {
  }

  /** What an ADD passes over on its way it found leased. */
  lemma SkippedAreLeased(a: Allocator, d: Dir, op: Op, c: Addr, h: Addr)
    requires Picked(a, d, op) == Some(c) && Usable(a, h) && h != c && h !in d.leases
    ensures Usable(a, c) && Precedes(a, d.cursor, c, h)
  {
  }

  /** Where the cursor is after an operation that does not lose it. */
  lemma CursorAfterOp(a: Allocator, d: Dir, op: Op)
    requires !LosesCursor(a, d, op)
    ensures Do(a, d, op).cursor == if Given(a, d, op).Some? then Given(a, d, op) else d.cursor
  {
  }

  /** One operation that does not lose the cursor: what was ahead still is, or has been seen. */
  lemma SweepStep(a: Allocator, dirs: seq<Dir>, ops: seq<Op>, lo: nat, k: nat, x: Addr, h: Addr)
    requires Run(a, dirs, ops) && lo <= k < |ops| && Usable(a, x) && Usable(a, h) && h != x
    requires Accounted(a, dirs, ops, lo, k, x, h)
    requires !LosesCursor(a, dirs[k], ops[k])
    ensures Accounted(a, dirs, ops, lo, k + 1, x, h)
    ensures Given(a, dirs[k], ops[k]) == Some(x) ==> Seen(a, dirs, ops, lo, k + 1, h)
  {
    CursorAfterOp(a, dirs[k], ops[k]);
    assert dirs[k + 1] == Do(a, dirs[k], ops[k]);
    hide Run, Do, LosesCursor, Precedes, Usable, NextFree;
    if Seen(a, dirs, ops, lo, k, h) {
      var j :| lo <= j < k && Searches(ops[j]) && (Given(a, dirs[j], ops[j]) == Some(h) || h in dirs[j].leases);
      assert Seen(a, dirs, ops, lo, k + 1, h);
    } else if Given(a, dirs[k], ops[k]).Some? && !Seen(a, dirs, ops, lo, k + 1, h) {
      var c := Given(a, dirs[k], ops[k]).value;
      SkippedAreLeased(a, dirs[k], ops[k], c, h);
      GoingRound(a, dirs[k].cursor, c, h, h);
      if c != x {
        GoingRound(a, dirs[k].cursor, c, h, x);
      }
    }
  }

  /** Without lost cursors the sweep goes on. */
  lemma {:induction false} SweptUntil(a: Allocator, dirs: seq<Dir>, ops: seq<Op>, lo: nat, k: nat, hi: nat, x: Addr)
    requires Run(a, dirs, ops) && lo <= k <= hi <= |ops| && Usable(a, x) && Swept(a, dirs, ops, lo, k, x)
    requires forall j | k <= j < hi :: !LosesCursor(a, dirs[j], ops[j])
    ensures Swept(a, dirs, ops, lo, hi, x)
  {
    if k < hi {
      SweptUntil(a, dirs, ops, lo, k, hi - 1, x);
      hide LosesCursor, Usable, Accounted, Do;
      forall h: Addr | Usable(a, h) && h != x
        ensures Accounted(a, dirs, ops, lo, hi, x, h)
      {
        SweepStep(a, dirs, ops, lo, hi - 1, x, h);
      }
    }
  }

  /** Once x is handed out everything else has been seen. */
  lemma SweptOnReuse(a: Allocator, dirs: seq<Dir>, ops: seq<Op>, lo: nat, k: nat, j: nat, x: Addr, h: Addr)
    requires Run(a, dirs, ops) && lo <= k <= j < |ops| && Usable(a, x) && Swept(a, dirs, ops, lo, k, x)
    requires forall n | k <= n <= j :: !LosesCursor(a, dirs[n], ops[n])
    requires Given(a, dirs[j], ops[j]) == Some(x) && Usable(a, h) && h != x
    ensures Seen(a, dirs, ops, lo, j + 1, h)
  {
    SweptUntil(a, dirs, ops, lo, k, j, x);
    hide LosesCursor, Usable, Accounted, Do, Seen, Given;
    SweepStep(a, dirs, ops, lo, j, x, h);
  }

  /** Just after x is handed out everything lies ahead. */
  lemma SweepStarts(a: Allocator, dirs: seq<Dir>, ops: seq<Op>, i: nat, x: Addr)
    requires Run(a, dirs, ops) && i < |ops| && Given(a, dirs[i], ops[i]) == Some(x)
    ensures Usable(a, x) && Swept(a, dirs, ops, i + 1, i + 1, x)
  {
    CursorAfterOp(a, dirs[i], ops[i]);
    assert dirs[i + 1] == Do(a, dirs[i], ops[i]);
  }

  /**
   Round robin: between two ADDs that hand out the same address, every other usable address
   was handed out or found leased by some ADD after the first, up to the second, whatever
   else failed, if no ADD in between lost its cursor write.
   */
  lemma ReuseOnlyAfterFullSweep(a: Allocator, dirs: seq<Dir>, ops: seq<Op>, i: nat, j: nat, x: Addr, h: Addr)
    requires Run(a, dirs, ops) && i < j < |ops|
    requires Given(a, dirs[i], ops[i]) == Some(x) && Given(a, dirs[j], ops[j]) == Some(x)
    requires forall k | i < k < j :: !LosesCursor(a, dirs[k], ops[k])
    requires Usable(a, h) && h != x
    ensures Seen(a, dirs, ops, i + 1, j + 1, h)
  {
    SweepStarts(a, dirs, ops, i, x);
    SweptOnReuse(a, dirs, ops, i + 1, i + 1, j, x, h);
  }

  // ------------------------------------------------- exactly which lost cursors matter

  /** A longer run that hands out x at its end and loses no cursor on the way. */
  ghost predicate ComesRound(a: Allocator, dirs: seq<Dir>, ops: seq<Op>, dirs': seq<Dir>, ops': seq<Op>, x: Addr) {
    && Run(a, dirs', ops') && dirs <= dirs' && ops <= ops' && |ops| < |ops'|
    && (forall k | |ops| <= k < |ops'| :: !LosesCursor(a, dirs'[k], ops'[k]))
    && Given(a, dirs'[|ops'| - 1], ops'[|ops'| - 1]) == Some(x)
  }

  predicate Faultless(op: Op) {
    if op.AddOp? then NoFaults(op.f) else op.left == {}
  }

  /** A longer run whose further operations are without faults, and see h at no ADD. */
  ghost predicate Avoids(a: Allocator, dirs: seq<Dir>, ops: seq<Op>, dirs': seq<Dir>, ops': seq<Op>, lo: nat, h: Addr) {
    && Run(a, dirs', ops') && dirs <= dirs' && ops <= ops' && |dirs| == |ops| + 1
    && (forall k | |ops| <= k < |ops'| :: Faultless(ops'[k]))
    && !Seen(a, dirs', ops', lo, |ops'|, h)
  }

  lemma AvoidsOneMore(a: Allocator, dirs: seq<Dir>, ops: seq<Op>, dirs': seq<Dir>, ops': seq<Op>, lo: nat, h: Addr,
                      op: Op)
    requires Avoids(a, dirs, ops, dirs', ops', lo, h) && Faultless(op)
    requires op.AddOp? ==> h !in dirs'[|ops'|].leases && Given(a, dirs'[|ops'|], op) != Some(h)
    ensures Avoids(a, dirs, ops, dirs' + [Do(a, dirs'[|ops'|], op)], ops' + [op], lo, h)
  {
    OneMore(a, dirs', ops', op);
    hide Do, Given;
    var longer, more := dirs' + [Do(a, dirs'[|ops'|], op)], ops' + [op];
    if Seen(a, longer, more, lo, |more|, h) {
      var k :| && lo <= k < |more| && Searches(more[k])
               && (Given(a, longer[k], more[k]) == Some(h) || h in longer[k].leases);
      assert false;
    }
  }

  /** A DEL by the pair its lease file names frees an address. */
  lemma Freed(a: Allocator, dirs: seq<Dir>, ops: seq<Op>, dirs': seq<Dir>, ops': seq<Op>, lo: nat, h: Addr, x: Addr)
    returns (dirs'': seq<Dir>, ops'': seq<Op>)
    requires Avoids(a, dirs, ops, dirs', ops', lo, h)
    ensures Avoids(a, dirs, ops, dirs'', ops'', lo, h)
    ensures var d, d' := dirs'[|ops'|], dirs''[|ops''|];
            d'.cursor == d.cursor && x !in d'.leases && forall y | y in d'.leases :: y in d.leases
  {
    dirs'', ops'' := dirs', ops';
    if x in dirs'[|ops'|].leases {
      var lines := Text.Lines(dirs'[|ops'|].leases[x]);
      var op := DelOp(LineOrEmpty(lines, 0), LineOrEmpty(lines, 1), {});
      AvoidsOneMore(a, dirs, ops, dirs', ops', lo, h, op);
      dirs'', ops'' := dirs' + [Do(a, dirs'[|ops'|], op)], ops' + [op];
    }
  }

  /** Both are free, and going round from the cursor h comes after x. */
  ghost predicate Behind(a: Allocator, d: Dir, x: Addr, h: Addr) {
    x !in d.leases && h !in d.leases && !Precedes(a, d.cursor, h, x)
  }

  function PlainAdd(): Op {
    AddOp("", "", Faults(false, false, false, Written, CursorWritten, {}))
  }

  /** A plain ADD moves the cursor on towards a free x, and leaves what lies behind x alone. */
  lemma AddTowards(a: Allocator, d: Dir, x: Addr, h: Addr)
    requires Usable(a, x) && Usable(a, h) && h != x && Behind(a, d, x, h)
    ensures Given(a, d, PlainAdd()).Some? && Given(a, d, PlainAdd()) != Some(h)
    ensures var c, d' := Given(a, d, PlainAdd()).value, Do(a, d, PlainAdd());
            c != x ==>
              && Behind(a, d', x, h) && Usable(a, c) && c !in d.leases && d'.leases.Keys == d.leases.Keys + {c}
  {
    FreeIsFound(a, d.leases.Keys, d.cursor, x);
    var c := Given(a, d, PlainAdd()).value;
    hide Precedes, Usable, LeaseText;
    if c != x {
      SkippedAreLeased(a, d, PlainAdd(), c, x);
      if c != h {
        GoingRound(a, d.cursor, c, h, x);
      }
    }
  }

  function Free(a: Allocator, d: Dir): set<Addr> {
    (set ip | ip in UsableHosts(a)) - d.leases.Keys
  }

  /** One plain ADD: it hands out x, or x still lies ahead and there is less on the way. */
  lemma OnePlainAdd(a: Allocator, dirs: seq<Dir>, ops: seq<Op>, dirs': seq<Dir>, ops': seq<Op>, lo: nat, x: Addr,
                    h: Addr)
    returns (dirs'': seq<Dir>, ops'': seq<Op>)
    requires Usable(a, x) && Usable(a, h) && h != x
    requires Avoids(a, dirs, ops, dirs', ops', lo, h) && Behind(a, dirs'[|ops'|], x, h)
    ensures Avoids(a, dirs, ops, dirs'', ops'', lo, h) && |ops''| == |ops'| + 1
    ensures || Given(a, dirs''[|ops'|], ops''[|ops'|]) == Some(x)
            || (Behind(a, dirs''[|ops''|], x, h) && |Free(a, dirs''[|ops''|])| < |Free(a, dirs'[|ops'|])|)
  {
    var d, op := dirs'[|ops'|], PlainAdd();
    AddTowards(a, d, x, h);
    dirs'', ops'' := dirs' + [Do(a, d, op)], ops' + [op];
    PlainAddIsFaultless();
    AvoidsOneMore(a, dirs, ops, dirs', ops', lo, h, op);
    assert |dirs'| == |ops'| + 1;
    if Given(a, d, op) != Some(x) {
      UsableHostsExact(a);
      hide Usable, UsableHosts, Avoids, Given, Do;
      Shrinks((set ip | ip in UsableHosts(a)), d.leases.Keys, Given(a, d, op).value);
    }
  }

  /** Plain ADDs until x is handed out. */
  lemma {:induction false} AddsUntil(a: Allocator, dirs: seq<Dir>, ops: seq<Op>, dirs': seq<Dir>, ops': seq<Op>,
                                     lo: nat, x: Addr, h: Addr)
    returns (dirs'': seq<Dir>, ops'': seq<Op>)
    requires Usable(a, x) && Usable(a, h) && h != x
    requires Avoids(a, dirs, ops, dirs', ops', lo, h) && Behind(a, dirs'[|ops'|], x, h)
    ensures Avoids(a, dirs, ops, dirs'', ops'', lo, h) && |ops'| < |ops''|
    ensures Given(a, dirs''[|ops''| - 1], ops''[|ops''| - 1]) == Some(x)
    decreases |Free(a, dirs'[|ops'|])|
  {
    hide Usable, Given, Do, Seen, Behind, Free;
    dirs'', ops'' := OnePlainAdd(a, dirs, ops, dirs', ops', lo, x, h);
    if Given(a, dirs''[|ops'|], ops''[|ops'|]) != Some(x) {
      dirs'', ops'' := AddsUntil(a, dirs, ops, dirs'', ops'', lo, x, h);
    }
  }

  lemma PlainAddIsFaultless()
    ensures Faultless(PlainAdd()) && PlainAdd().AddOp?
  {
  }

  /** Where something neither seen nor ahead exists, plain operations come round to x without seeing it. */
  lemma RoundWithout(a: Allocator, dirs: seq<Dir>, ops: seq<Op>, lo: nat, x: Addr, h: Addr)
    returns (dirs': seq<Dir>, ops': seq<Op>)
    requires Run(a, dirs, ops) && lo <= |ops| && Usable(a, x) && Usable(a, h) && h != x
    requires !Seen(a, dirs, ops, lo, |ops|, h) && !Precedes(a, dirs[|ops|].cursor, h, x)
    ensures Avoids(a, dirs, ops, dirs', ops', lo, h) && |ops| < |ops'|
    ensures Given(a, dirs'[|ops'| - 1], ops'[|ops'| - 1]) == Some(x)
  {
    assert |dirs| == |ops| + 1;
    hide Precedes, Usable, Seen, Given;
    dirs', ops' := Freed(a, dirs, ops, dirs, ops, lo, h, h);
    dirs', ops' := Freed(a, dirs, ops, dirs', ops', lo, h, x);
    dirs', ops' := AddsUntil(a, dirs, ops, dirs', ops', lo, x, h);
  }

  lemma Shrinks(all: set<Addr>, taken: set<Addr>, c: Addr)
    requires c in all && c !in taken
    ensures |all - (taken + {c})| < |all - taken|
  {
    assert all - (taken + {c}) == (all - taken) - {c};
  }

  /**
   Exactly when round robin survives, whatever has failed so far: every way of coming round
   to x without losing the cursor again sees all other usable addresses exactly if what has
   not been seen yet lies ahead of the cursor. So a lost cursor write does harm exactly if
   the cursor then reads as something that leaves out an address not seen yet.
   */
  lemma SweepSurvivesIff(a: Allocator, dirs: seq<Dir>, ops: seq<Op>, lo: nat, x: Addr)
    requires Run(a, dirs, ops) && lo <= |ops| && Usable(a, x)
    ensures (forall dirs', ops', h: Addr | ComesRound(a, dirs, ops, dirs', ops', x) && Usable(a, h) && h != x ::
               Seen(a, dirs', ops', lo, |ops'|, h))
            <==> Swept(a, dirs, ops, lo, |ops|, x)
  {
    hide Swept, Seen, Usable;
    if Swept(a, dirs, ops, lo, |ops|, x) {
      forall dirs', ops', h: Addr | ComesRound(a, dirs, ops, dirs', ops', x) && Usable(a, h) && h != x
        ensures Seen(a, dirs', ops', lo, |ops'|, h)
      {
        SweptComesRound(a, dirs, ops, dirs', ops', lo, x, h);
      }
    } else {
      var dirs', ops', h := NotSweptComesRound(a, dirs, ops, lo, x);
    }
  }

  lemma SweptComesRound(a: Allocator, dirs: seq<Dir>, ops: seq<Op>, dirs': seq<Dir>, ops': seq<Op>, lo: nat, x: Addr,
                        h: Addr)
    requires Run(a, dirs, ops) && lo <= |ops| && Usable(a, x) && Swept(a, dirs, ops, lo, |ops|, x)
    requires ComesRound(a, dirs, ops, dirs', ops', x) && Usable(a, h) && h != x
    ensures Seen(a, dirs', ops', lo, |ops'|, h)
  {
    hide Usable, Swept, Seen, Given, LosesCursor, Do;
    SweptInLonger(a, dirs, ops, dirs', ops', lo, x);
    SweptOnReuse(a, dirs', ops', lo, |ops|, |ops'| - 1, x, h);
  }

  lemma NotSweptComesRound(a: Allocator, dirs: seq<Dir>, ops: seq<Op>, lo: nat, x: Addr)
    returns (dirs': seq<Dir>, ops': seq<Op>, h: Addr)
    requires Run(a, dirs, ops) && lo <= |ops| && Usable(a, x) && !Swept(a, dirs, ops, lo, |ops|, x)
    ensures ComesRound(a, dirs, ops, dirs', ops', x) && Usable(a, h) && h != x
    ensures !Seen(a, dirs', ops', lo, |ops'|, h)
  {
    h :| Usable(a, h) && h != x && !Accounted(a, dirs, ops, lo, |ops|, x, h);
    hide Usable, Seen, Given, Do, Precedes;
    dirs', ops' := RoundWithout(a, dirs, ops, lo, x, h);
    forall k | |ops| <= k < |ops'|
      ensures !LosesCursor(a, dirs'[k], ops'[k])
    {
      assert Faultless(ops'[k]);
    }
  }

  lemma SweptInLonger(a: Allocator, dirs: seq<Dir>, ops: seq<Op>, dirs': seq<Dir>, ops': seq<Op>, lo: nat, x: Addr)
    requires Run(a, dirs, ops) && Run(a, dirs', ops') && dirs <= dirs' && ops <= ops' && lo <= |ops|
    requires Swept(a, dirs, ops, lo, |ops|, x)
    ensures Swept(a, dirs', ops', lo, |ops|, x)
  {
    assert |dirs| == |ops| + 1 && |dirs'| == |ops'| + 1;
    hide Run, Precedes, Usable, Given;
    forall h: Addr | Usable(a, h) && h != x
      ensures Accounted(a, dirs', ops', lo, |ops|, x, h)
    {
      assert Accounted(a, dirs, ops, lo, |ops|, x, h);
      if Seen(a, dirs, ops, lo, |ops|, h) {
        var k :| && lo <= k < |ops| && Searches(ops[k])
                 && (Given(a, dirs[k], ops[k]) == Some(h) || h in dirs[k].leases);
        assert dirs'[k] == dirs[k] && ops'[k] == ops[k];
      }
    }
  }

  /**
   One lost cursor write is enough: from an empty directory the lowest address x is handed
   out, the next ADD loses the cursor, and without any further fault x is handed out again
   although another usable address was neither handed out nor found leased in between.
   */
  lemma LostCursorBreaksRoundRobin(a: Allocator, x: Addr, z: Addr) returns (dirs: seq<Dir>, ops: seq<Op>)
    requires Usable(a, x) && Usable(a, z) && z != x && forall u: Addr | Usable(a, u) :: x <= u
    ensures Run(a, dirs, ops) && dirs[0] == Dir(map[], None) && 2 < |ops|
    ensures forall k | 0 <= k < |ops| && k != 1 :: Faultless(ops[k])
    ensures ops[1].AddOp? && NoFaults(ops[1].f.(cursor := CursorWritten)) && ops[1].f.cursor == CursorLost(None)
    ensures Given(a, dirs[0], ops[0]) == Some(x) && Given(a, dirs[|ops| - 1], ops[|ops| - 1]) == Some(x)
    ensures !Seen(a, dirs, ops, 1, |ops|, z)
  {
    var first := PlainAdd();
    var second := AddOp("", "", Faults(false, false, false, Written, CursorLost(None), {}));
    var d0 := Dir(map[], None);
    FirstFreeUniqueAtStart(a, x);
    assert d0.leases.Keys == {};
    assert Given(a, d0, first) == Some(x);
    var d1 := Do(a, d0, first);
    assert d1.leases.Keys == {x};
    FreeIsFound(a, d1.leases.Keys, d1.cursor, z);
    var d2 := Do(a, d1, second);
    assert d2.cursor == None;
    assert Run(a, [d0, d1, d2], [first, second]);
    assert !Seen(a, [d0, d1, d2], [first, second], 1, 2, z);
    hide Do, Run, Seen, Usable, Given;
    dirs, ops := RoundWithout(a, [d0, d1, d2], [first, second], 1, x, z);
    assert dirs[0] == [d0, d1, d2][0] && ops[0] == [first, second][0] && ops[1] == [first, second][1];
  }

  lemma FirstFreeUniqueAtStart(a: Allocator, x: Addr)
    requires Usable(a, x) && forall u: Addr | Usable(a, u) :: x <= u
    ensures NextFree(a, {}, None) == Some(x)
  {
    assert FirstFree(a, {}, None, x);
    FirstFreeUnique(a, {}, None, x, NextFree(a, {}, None).value);
  }

  // --------------------------------------------------------------- lease conservation

  /** The pair's addresses leased since its last DEL, on top of those it started with, and what its DELs left. */
  ghost function Holding(a: Allocator, dirs: seq<Dir>, ops: seq<Op>, k: nat, cid: string, ifname: string): set<Addr>
    requires Run(a, dirs, ops) && k <= |ops|
  {
    if k == 0 then Owned(dirs[0].leases, cid, ifname)
    else
      var before, op := Holding(a, dirs, ops, k - 1, cid, ifname), ops[k - 1];
      if op.cid != cid || op.ifname != ifname then before
      else if op.DelOp? then before * op.left
      else before + ToSet(Leased(a, dirs[k - 1], op))
  }

  function ToSet(ip: Option<Addr>): set<Addr> {
    match ip case Some(x) => {x} case None => {}
  }

  /** The texts are plain, and a failed lease write leaves no torn file. */
  predicate PlainOp(op: Op) {
    && PlainId(op.cid) && '\n' !in op.ifname
    && (op.AddOp? ==> op.f.lease == Written || op.f.lease.left == None)
  }

  /** One operation changes only its own pair's addresses. */
  lemma OwnedAfterOp(a: Allocator, d: Dir, op: Op, cid: string, ifname: string)
    requires PlainOp(op)
    ensures Owned(Do(a, d, op).leases, cid, ifname)
            == if op.cid == cid && op.ifname == ifname then
                 if op.DelOp? then Owned(d.leases, cid, ifname) * op.left
                 else Owned(d.leases, cid, ifname) + ToSet(Leased(a, d, op))
               else Owned(d.leases, cid, ifname)
  {
    hide NextFree, PlainId;
    LeaseOwnerRoundTrip(op.cid, op.ifname);
    if ReleaseMatches(LeaseText(op.cid, op.ifname), cid, ifname) {
      LeaseOwnerUnique(op.cid, op.ifname, cid, ifname);
    }
    if op.AddOp? && Leased(a, d, op).Some? {
      PickedIsFree(a, d, op);
    }
  }

  lemma PickedIsFree(a: Allocator, d: Dir, op: Op)
    requires Picked(a, d, op).Some?
    ensures Picked(a, d, op).value !in d.leases && Usable(a, Picked(a, d, op).value)
  {
  }

  /**
   In a run of plain commands, whatever fails, a pair owns exactly what its ADDs leased since
   its last complete DEL.
   */
  lemma {:induction false} LeasesConserved(a: Allocator, dirs: seq<Dir>, ops: seq<Op>, k: nat, cid: string,
                                           ifname: string)
    requires Run(a, dirs, ops) && k <= |ops| && forall op | op in ops :: PlainOp(op)
    ensures Owned(dirs[k].leases, cid, ifname) == Holding(a, dirs, ops, k, cid, ifname)
  {
    if k > 0 {
      LeasesConserved(a, dirs, ops, k - 1, cid, ifname);
      assert dirs[k] == Do(a, dirs[k - 1], ops[k - 1]) && ops[k - 1] in ops;
      hide Run, Owned, Do, Leased, PlainOp;
      OwnedAfterOp(a, dirs[k - 1], ops[k - 1], cid, ifname);
    }
  }
}
