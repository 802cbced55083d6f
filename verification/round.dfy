/**
 * One call's round over the cluster's connection array, as pure functions
 * over the sequence of connection records: partition tagging, the launch
 * pass, the poll wait set, event dispatch, the recheck pass with its
 * timeouts, the wait loop and the post-loop review.  The Cluster methods in
 * Execute work on the array in place and are proved equal to these.
 */
module Round {
  import opened ProxyTypes
  import opened ConnMachine

  /** What a pass over the connection array leaves behind. */
  datatype Sweep = Sweep(cs: seq<Conn>, status: Status)

  /** Every record satisfies the connection invariant. */
  predicate AllOk(cs: seq<Conn>)
  {
    forall j :: 0 <= j < |cs| ==> ConnOk(cs[j])
  }

  /**
   * Frame of a round after tagging: the tags and row cursors stay, and an
   * untagged connection is not touched at all.
   */
  predicate RoundFrame(cs: seq<Conn>, ds: seq<Conn>)
  {
    && |ds| == |cs|
    && forall j :: 0 <= j < |cs| ==>
         ds[j].runOn == cs[j].runOn && ds[j].pos == cs[j].pos && (!cs[j].runOn ==> ds[j] == cs[j])
  }

  lemma RoundFrameTrans(a: seq<Conn>, b: seq<Conn>, c: seq<Conn>)
    requires RoundFrame(a, b) && RoundFrame(b, c)
    ensures RoundFrame(a, c)
  {
  }

  // ---------------------------------------------------------------- tagging

  /** 2^k */
  function Pow2(k: nat): (r: nat)
    ensures r >= 1
  {
    if k == 0 then 1 else 2 * Pow2(k - 1)
  }

  /** Bitwise AND of two non-negative integers. */
  function AndNat(a: nat, b: nat): nat
  {
    if a == 0 || b == 0 then 0 else 2 * AndNat(a / 2, b / 2) + (if a % 2 == 1 && b % 2 == 1 then 1 else 0)
  }

  /** A AND never exceeds either operand. */
  lemma {:induction false} AndNatBound(a: nat, b: nat)
    ensures AndNat(a, b) <= a && AndNat(a, b) <= b
    decreases a
  {
    if a != 0 && b != 0 {
      AndNatBound(a / 2, b / 2);
    }
  }

  /** Euclidean division is determined by quotient and remainder. */
  lemma DivModUnique(a: int, d: int, q: int, r: int)
    requires d > 0 && 0 <= r < d && a == q * d + r
    ensures a / d == q && a % d == r
  {
    var q', r' := a / d, a % d;
    assert (q - q') * d == r' - r;
    if q > q' {
      MulAtLeast(q - q', d);
    } else if q < q' {
      MulAtLeast(q' - q, d);
    }
  }

  lemma MulAtLeast(x: int, d: int)
    requires x >= 1 && d > 0
    ensures x * d >= d
  {
  }

  lemma ModTwice(a: nat, p: nat)
    requires p >= 1
    ensures a % (2 * p) == 2 * ((a / 2) % p) + a % 2
  {
    var q := (a / 2) / p;
    var s := (a / 2) % p;
    assert a / 2 == q * p + s;
    assert a == q * (2 * p) + (2 * s + a % 2);
    DivModUnique(a, 2 * p, q, 2 * s + a % 2);
  }

  /** AND with a mask of k low bits is reduction modulo 2^k. */
  lemma {:induction false} AndLowMask(a: nat, k: nat)
    ensures AndNat(a, Pow2(k) - 1) == a % Pow2(k)
    decreases k
  {
    if k == 0 {
    } else if a == 0 {
    } else {
      var p := Pow2(k - 1);
      assert (Pow2(k) - 1) / 2 == p - 1 && (Pow2(k) - 1) % 2 == 1;
      AndLowMask(a / 2, k - 1);
      ModTwice(a, p);
    }
  }

  const TwoTo32: int := 0x1_0000_0000

  /**
   * The hash slot: the int2/int4/int8 value as a uint32 (two's complement
   * truncation) ANDed with the partition mask.
   */
  function HashSlot(v: int, mask: nat): (r: nat)
    ensures r <= mask
  {
    AndNatBound(v % TwoTo32, mask);
    AndNat(v % TwoTo32, mask)
  }

  /** With a mask 2^k - 1 the hash slot is the value modulo 2^k. */
  lemma HashSlotIsModulo(v: int, k: nat)
    requires k <= 32
    ensures HashSlot(v, Pow2(k) - 1) == v % Pow2(k)
  {
    var u: nat := v % TwoTo32;
    AndLowMask(u, k);
    var p, m := Pow2(k), Pow2(32 - k);
    Pow2Add(k, 32 - k);
    Pow2Of32();
    var n := v / TwoTo32;
    assert v == n * TwoTo32 + u;
    Regroup(n, p, m);
    ModShift(v, u, n * m, p);
  }

  lemma Regroup(n: int, p: int, m: int)
    ensures n * (p * m) == (n * m) * p
  {
  }

  /** Adding a multiple of p does not change the remainder modulo p. */
  lemma ModShift(v: int, u: int, n: int, p: nat)
    requires p >= 1 && v == n * p + u
    ensures v % p == u % p
  {
    var a, b := u / p, u % p;
    assert u == a * p + b;
    assert n * p + a * p == (n + a) * p;
    DivModUnique(v, p, n + a, b);
  }

  lemma Pow2Of32()
    ensures Pow2(32) == TwoTo32
  {
    assert Pow2(4) == 16;
    Pow2Add(4, 4);
    Pow2Add(8, 8);
    Pow2Add(16, 16);
  }

  lemma {:induction false} Pow2Add(a: nat, b: nat)
    ensures Pow2(a + b) == Pow2(a) * Pow2(b)
    decreases a
  {
    if a > 0 {
      Pow2Add(a - 1, b);
    }
  }

  /** The partition slots 0 .. n-1. */
  function Below(n: nat): (r: set<nat>)
    ensures forall s: int :: s in r <==> 0 <= s < n
  {
    if n == 0 then {} else Below(n - 1) + {n - 1}
  }

  /** Type of the hash function's result column. */
  datatype HashType = Int2 | Int4 | Int8 | OtherType

  /** Partition slots tagged so far and the outcome. */
  datatype Tagging = Tagging(slots: set<nat>, status: Status)

  /**
   * The tagging loop of tag_hash_partitions over the hash rows: a NULL row
   * or a result type other than int2/int4/int8 stops it, with the slots of
   * the rows before it already tagged.
   */
  function HashRows(htype: HashType, rows: seq<Option<int>>, mask: nat): (r: Tagging)
    ensures forall s :: s in r.slots ==> s <= mask
    ensures r.status.Fail? ==> r.status.error in {HashNull, HashTypeInvalid}
  {
    if rows == [] then Tagging({}, Pass)
    else if rows[0].None? then Tagging({}, Fail(HashNull))
    else if htype == OtherType then Tagging({}, Fail(HashTypeInvalid))
    else
      var t := HashRows(htype, rows[1..], mask);
      Tagging({HashSlot(rows[0].value, mask)} + t.slots, t.status)
  }

  /**
   * The tagging loop succeeds exactly when no row is NULL and, if there are
   * rows, the type is a hashable integer; it then tags exactly the slots of
   * the rows.
   */
  lemma {:induction false} HashRowsSpec(htype: HashType, rows: seq<Option<int>>, mask: nat)
    ensures var r := HashRows(htype, rows, mask);
      && (r.status.Pass? <==> (forall k :: 0 <= k < |rows| ==> rows[k].Some?) && (rows != [] ==> htype != OtherType))
      && (r.status.Pass? ==> r.slots == set k | 0 <= k < |rows| :: HashSlot(rows[k].value, mask))
  {
    if rows != [] && rows[0].Some? && htype != OtherType {
      var t := HashRows(htype, rows[1..], mask);
      var r := HashRows(htype, rows, mask);
      HashRowsSpec(htype, rows[1..], mask);
      assert (forall k :: 0 <= k < |rows| ==> rows[k].Some?) <==> (forall k :: 0 <= k < |rows[1..]| ==> rows[1..][k].Some?) by {
        forall k | 0 <= k < |rows[1..]| ensures rows[1..][k] == rows[k + 1] { }
        forall k | 0 < k < |rows| ensures rows[k] == rows[1..][k - 1] { }
      }
      if r.status.Pass? {
        forall s | s in r.slots ensures exists k :: 0 <= k < |rows| && s == HashSlot(rows[k].value, mask) {
          if s != HashSlot(rows[0].value, mask) {
            var k :| 0 <= k < |rows[1..]| && s == HashSlot(rows[1..][k].value, mask);
            assert rows[1..][k] == rows[k + 1];
          }
        }
        forall k | 0 <= k < |rows| ensures HashSlot(rows[k].value, mask) in r.slots {
          if k > 0 {
            assert rows[k] == rows[1..][k - 1];
          }
        }
      }
    }
  }

  /** HashRows unfolded once, for a loop that walks the rows. */
  lemma HashRowsStep(htype: HashType, rows: seq<Option<int>>, k: nat, mask: nat)
    requires k < |rows| && rows[k].Some? && htype != OtherType
    ensures HashRows(htype, rows[k..], mask) ==
      var t := HashRows(htype, rows[k + 1..], mask);
      Tagging({HashSlot(rows[k].value, mask)} + t.slots, t.status)
  {
    assert rows[k..][0] == rows[k] && rows[k..][1..] == rows[k + 1..];
  }

  /** tag_hash_partitions: the rows' slots, then the row-count rule. */
  function HashTagging(htype: HashType, rows: seq<Option<int>>, mask: nat, retSet: bool): (r: Tagging)
    ensures forall s :: s in r.slots ==> s <= mask
    ensures r.status.Pass? <==>
      HashRows(htype, rows, mask).status.Pass? && (|rows| == 1 || retSet)
    ensures r.status == Fail(HashCountNotOne) <==>
      HashRows(htype, rows, mask).status.Pass? && |rows| != 1 && !retSet
  {
    var t := HashRows(htype, rows, mask);
    if t.status.Pass? && |rows| != 1 && !retSet then Tagging(t.slots, Fail(HashCountNotOne)) else t
  }

  /** How the proxied function chooses its partitions. */
  datatype RunType =
    | RHash(htype: HashType, rows: seq<Option<int>>)
    | RAll
    | RExact(nr: int)
    | RAny(rand: nat)
    | RUnset

  /** The partition slots plproxy_exec tags, and its outcome. */
  function Tags(run: RunType, partCount: nat, mask: nat, retSet: bool): (r: Tagging)
    ensures run.RAll? ==> r == Tagging(Below(partCount), Pass)
    ensures run.RExact? ==>
      if 0 <= run.nr < partCount then r == Tagging({run.nr as nat}, Pass)
      else r == Tagging({}, Fail(PartOutOfRange))
    ensures run.RAny? ==> r.status.Pass? && |r.slots| == 1 && forall s :: s in r.slots ==> s <= mask
    ensures run.RHash? ==> r == HashTagging(run.htype, run.rows, mask, retSet)
    ensures run.RUnset? ==> r == Tagging({}, Fail(RunTypeUnset))
    ensures run.RHash? || run.RAny? ==> forall s :: s in r.slots ==> s <= mask
  {
    match run
    case RHash(htype, rows) => HashTagging(htype, rows, mask, retSet)
    case RAll => Tagging(Below(partCount), Pass)
    case RExact(nr) => if nr < 0 || nr >= partCount then Tagging({}, Fail(PartOutOfRange)) else Tagging({nr as nat}, Pass)
    case RAny(rand) =>
      AndNatBound(rand, mask);
      Tagging({AndNat(rand, mask)}, Pass)
    case RUnset => Tagging({}, Fail(RunTypeUnset))
  }

  // --------------------------------------------------------------- launch

  /**
   * One tagged connection in the launch pass of remote_execute: prepare it,
   * and send the query right away when it came out READY.
   */
  function Start(cf: Config, retBinary: bool, c: Conn, now: int, local: Local, rem: Remote): (r: Step)
    ensures r.status.Pass? ==> InFlight(r.conn.state)
    ensures RoundKept(c, r.conn)
    ensures ConnOk(c) ==> ConnOk(r.conn)
  {
    var p := Prepare(cf, c, now, rem);
    if p.status.Fail? || p.conn.state != CReady then p
    else
      var s := Send(cf, retBinary, p.conn, now, local, rem);
      Step(s.conn, s.status)
  }

  /** The launch pass from connection i on; it stops at the first failure. */
  function LaunchFrom(cf: Config, retBinary: bool, local: Local, cs: seq<Conn>, i: nat, now: int, launch: nat -> Remote): (r: Sweep)
    requires i <= |cs|
    ensures RoundFrame(cs, r.cs)
    ensures forall j :: 0 <= j < |cs| ==>
      r.cs[j] == cs[j] || (i <= j && cs[j].runOn && r.cs[j] == Start(cf, retBinary, cs[j], now, local, launch(j)).conn)
    ensures r.status.Pass? ==> forall j :: i <= j < |cs| && cs[j].runOn ==> InFlight(r.cs[j].state)
    ensures AllOk(cs) ==> AllOk(r.cs)
    decreases |cs| - i
  {
    if i == |cs| then Sweep(cs, Pass)
    else if !cs[i].runOn then LaunchFrom(cf, retBinary, local, cs, i + 1, now, launch)
    else
      var s := Start(cf, retBinary, cs[i], now, local, launch(i));
      if s.status.Fail? then Sweep(cs[i := s.conn], s.status)
      else LaunchFrom(cf, retBinary, local, cs[i := s.conn], i + 1, now, launch)
  }

  // ------------------------------------------------------------- wait set

  /** poll() event of one wait-set entry. */
  datatype Events = PollIn | PollOut

  /** One entry of the poll array: the connection it stands for and its event. */
  datatype PollFd = PollFd(conn: nat, events: Events)

  /** A connection of this round with I/O in flight. */
  predicate Waits(c: Conn)
  {
    c.runOn && InFlight(c.state)
  }

  /** READ states wait for input, WRITE states for output. */
  function Direction(s: ConnState): Events
  {
    if s == CConnectRead || s == CQueryRead then PollIn else PollOut
  }

  /**
   * The wait set of poll_conns from connection i on: exactly the tagged
   * connections in a connect or query state, in array order, each with the
   * direction its state wants.
   */
  function WaitFrom(cs: seq<Conn>, i: nat): (fds: seq<PollFd>)
    requires i <= |cs|
    ensures |fds| <= |cs| - i
    ensures forall k :: 0 <= k < |fds| ==>
      i <= fds[k].conn < |cs| && Waits(cs[fds[k].conn]) && fds[k].events == Direction(cs[fds[k].conn].state)
    ensures forall k, l :: 0 <= k < l < |fds| ==> fds[k].conn < fds[l].conn
    decreases |cs| - i
  {
    if i == |cs| then []
    else if Waits(cs[i]) then [PollFd(i, Direction(cs[i].state))] + WaitFrom(cs, i + 1)
    else WaitFrom(cs, i + 1)
  }

  /** Every waiting connection has its entry in the wait set. */
  lemma {:induction false} WaitSetComplete(cs: seq<Conn>, i: nat, j: nat)
    requires i <= j < |cs| && Waits(cs[j])
    ensures exists k :: 0 <= k < |WaitFrom(cs, i)| && WaitFrom(cs, i)[k].conn == j
    decreases j - i
  {
    if i == j {
      assert WaitFrom(cs, i)[0].conn == j;
    } else {
      WaitSetComplete(cs, i + 1, j);
      var k :| 0 <= k < |WaitFrom(cs, i + 1)| && WaitFrom(cs, i + 1)[k].conn == j;
      var rest := WaitFrom(cs, i + 1);
      if Waits(cs[i]) {
        assert WaitFrom(cs, i) == [PollFd(i, Direction(cs[i].state))] + rest;
        assert WaitFrom(cs, i)[k + 1] == rest[k];
        assert WaitFrom(cs, i)[k + 1].conn == j;
      } else {
        assert WaitFrom(cs, i) == rest;
      }
    }
  }

  /** The wait set from i on depends on the connections from i on only. */
  lemma {:induction false} WaitFromFrame(cs: seq<Conn>, ds: seq<Conn>, i: nat)
    requires i <= |cs| == |ds| && cs[i..] == ds[i..]
    ensures WaitFrom(cs, i) == WaitFrom(ds, i)
    decreases |cs| - i
  {
    if i < |cs| {
      assert cs[i] == cs[i..][0] == ds[i..][0] == ds[i];
      assert cs[i + 1..] == cs[i..][1..];
      assert ds[i + 1..] == ds[i..][1..];
      WaitFromFrame(cs, ds, i + 1);
    }
  }

  // ------------------------------------------------------------- dispatch

  /** Outcome of one poll() of the wait set. */
  datatype PollOutcome =
    | PollTimeout                  // no event within the bounded wait
    | PollInterrupted              // EINTR
    | PollError                    // any other failure
    | PollEvents(ready: set<nat>)  // positions in the poll array whose revents is set

  /**
   * The dispatch half of poll_conns from connection i on, pf being the
   * position in the poll array: each waiting connection takes the next
   * position, and is handled when that position reported an event.
   */
  function DispatchFrom(cs: seq<Conn>, i: nat, pf: nat, ready: set<nat>, io: nat -> Remote): (r: Sweep)
    requires i <= |cs|
    ensures RoundFrame(cs, r.cs)
    ensures forall j :: 0 <= j < |cs| ==>
      r.cs[j] == cs[j] || (i <= j && Waits(cs[j]) && r.cs[j] == Handle(cs[j], io(j)).conn)
    ensures AllOk(cs) ==> AllOk(r.cs)
    decreases |cs| - i
  {
    if i == |cs| then Sweep(cs, Pass)
    else if !Waits(cs[i]) then DispatchFrom(cs, i + 1, pf, ready, io)
    else if pf !in ready then DispatchFrom(cs, i + 1, pf + 1, ready, io)
    else
      var s := Handle(cs[i], io(i));
      if s.status.Fail? then Sweep(cs[i := s.conn], s.status)
      else DispatchFrom(cs[i := s.conn], i + 1, pf + 1, ready, io)
  }

  /**
   * The dispatch walks the poll array in step with the connections: the
   * position it gives connection i is the position of i's entry in the wait
   * set, so the "fd order is messed up" warning of poll_conns never fires.
   */
  lemma DispatchInStep(cs: seq<Conn>, fds: seq<PollFd>, i: nat, pf: nat)
    requires i < |cs| && Waits(cs[i])
    requires pf <= |fds| && fds[pf..] == WaitFrom(cs, i)
    ensures pf < |fds| && fds[pf].conn == i
    ensures fds[pf + 1..] == WaitFrom(cs, i + 1)
  {
    assert WaitFrom(cs, i) == [PollFd(i, Direction(cs[i].state))] + WaitFrom(cs, i + 1);
    assert fds[pf] == fds[pf..][0];
    assert fds[pf + 1..] == fds[pf..][1..];
  }

  /** A connection that does not wait takes no poll array entry and is not handled. */
  lemma SkipIdle(cs: seq<Conn>, i: nat, pf: nat, ready: set<nat>, io: nat -> Remote)
    requires i < |cs| && !Waits(cs[i])
    ensures WaitFrom(cs, i) == WaitFrom(cs, i + 1)
    ensures DispatchFrom(cs, i, pf, ready, io) == DispatchFrom(cs, i + 1, pf, ready, io)
  {
  }

  /**
   * What poll_conns does with each waiting connection: its entry is the one
   * at its own position in the wait set, counted from pf, and the
   * connection is handled exactly when that entry reported an event.
   */
  lemma DispatchHandles(cs: seq<Conn>, i: nat, pf: nat, ready: set<nat>, io: nat -> Remote, j: nat)
    requires i <= j < |cs| && Waits(cs[j])
    ensures var r := DispatchFrom(cs, i, pf, ready, io);
      var p := pf + |WaitFrom(cs, i)| - |WaitFrom(cs, j)|;
      r.status.Pass? ==>
        && (p in ready ==> r.cs[j] == Handle(cs[j], io(j)).conn)
        && (p !in ready ==> r.cs[j] == cs[j])
  {
    HandledFrom(cs, i, pf, ready, io, j);
  }

  /** DispatchHandles' claim for the dispatch started at connection i with poll position pf. */
  ghost predicate HandledAt(cs: seq<Conn>, i: nat, pf: nat, ready: set<nat>, io: nat -> Remote, j: nat)
    requires i <= j < |cs|
  {
    var r := DispatchFrom(cs, i, pf, ready, io);
    var p := pf + |WaitFrom(cs, i)| - |WaitFrom(cs, j)|;
    r.status.Pass? ==>
      && (p in ready ==> r.cs[j] == Handle(cs[j], io(j)).conn)
      && (p !in ready ==> r.cs[j] == cs[j])
  }

  lemma {:induction false} HandledFrom(cs: seq<Conn>, i: nat, pf: nat, ready: set<nat>, io: nat -> Remote, j: nat)
    requires i <= j < |cs| && Waits(cs[j])
    ensures HandledAt(cs, i, pf, ready, io, j)
    decreases j - i, 2
  {
    if i == j {
      DispatchHandlesHere(cs, i, pf, ready, io);
    } else if !Waits(cs[i]) {
      HandledFrom(cs, i + 1, pf, ready, io, j);
      HandledSkip(cs, i, pf, ready, io, j);
    } else {
      HandledFromWaiting(cs, i, pf, ready, io, j);
    }
  }

  /** HandledFrom when connection i, before j, waits. */
  lemma {:induction false} HandledFromWaiting(cs: seq<Conn>, i: nat, pf: nat, ready: set<nat>, io: nat -> Remote, j: nat)
    requires i < j < |cs| && Waits(cs[i]) && Waits(cs[j])
    ensures HandledAt(cs, i, pf, ready, io, j)
    decreases j - i, 1
  {
    if pf !in ready {
      HandledFrom(cs, i + 1, pf + 1, ready, io, j);
      HandledQuiet(cs, i, pf, ready, io, j);
    } else {
      HandledFromReady(cs, i, pf, ready, io, j);
    }
  }

  /** HandledFrom when connection i, before j, waits and its entry is ready. */
  lemma {:induction false} HandledFromReady(cs: seq<Conn>, i: nat, pf: nat, ready: set<nat>, io: nat -> Remote, j: nat)
    requires i < j < |cs| && Waits(cs[i]) && Waits(cs[j]) && pf in ready
    ensures HandledAt(cs, i, pf, ready, io, j)
    decreases j - i, 0
  {
    var s := Handle(cs[i], io(i));
    if s.status.Pass? {
      var ds := cs[i := s.conn];
      assert ds[j] == cs[j];
      HandledFrom(ds, i + 1, pf + 1, ready, io, j);
    }
    HandledReady(cs, i, pf, ready, io, j);
  }

  /** A connection before j that does not wait moves neither the position nor connection j. */
  lemma HandledSkip(cs: seq<Conn>, i: nat, pf: nat, ready: set<nat>, io: nat -> Remote, j: nat)
    requires i < j < |cs| && !Waits(cs[i])
    requires HandledAt(cs, i + 1, pf, ready, io, j)
    ensures HandledAt(cs, i, pf, ready, io, j)
  {
    SkipIdle(cs, i, pf, ready, io);
  }

  /** A waiting connection before j whose entry is quiet takes one position and is left alone. */
  lemma HandledQuiet(cs: seq<Conn>, i: nat, pf: nat, ready: set<nat>, io: nat -> Remote, j: nat)
    requires i < j < |cs| && Waits(cs[i]) && pf !in ready
    requires HandledAt(cs, i + 1, pf + 1, ready, io, j)
    ensures HandledAt(cs, i, pf, ready, io, j)
  {
    DispatchWaiting(cs, i, pf, ready, io);
  }

  /** A waiting connection before j whose entry is ready is handled; a failure ends the dispatch. */
  lemma HandledReady(cs: seq<Conn>, i: nat, pf: nat, ready: set<nat>, io: nat -> Remote, j: nat)
    requires i < j < |cs| && Waits(cs[i]) && pf in ready
    requires Handle(cs[i], io(i)).status.Pass? ==>
      HandledAt(cs[i := Handle(cs[i], io(i)).conn], i + 1, pf + 1, ready, io, j)
    ensures HandledAt(cs, i, pf, ready, io, j)
  {
    var s := Handle(cs[i], io(i));
    if s.status.Pass? {
      DispatchWaiting(cs, i, pf, ready, io);
      DispatchFrameAfter(cs, cs[i := s.conn], i, j);
    }
  }

  /** One waiting connection: it takes one poll position, and dispatch goes on past it unless handling it failed. */
  lemma DispatchWaiting(cs: seq<Conn>, i: nat, pf: nat, ready: set<nat>, io: nat -> Remote)
    requires i < |cs| && Waits(cs[i])
    ensures |WaitFrom(cs, i)| == 1 + |WaitFrom(cs, i + 1)|
    ensures pf !in ready ==> DispatchFrom(cs, i, pf, ready, io) == DispatchFrom(cs, i + 1, pf + 1, ready, io)
    ensures pf in ready && Handle(cs[i], io(i)).status.Pass? ==>
      DispatchFrom(cs, i, pf, ready, io) == DispatchFrom(cs[i := Handle(cs[i], io(i)).conn], i + 1, pf + 1, ready, io)
  {
  }

  /** The connection at the dispatch position itself. */
  lemma DispatchHandlesHere(cs: seq<Conn>, i: nat, pf: nat, ready: set<nat>, io: nat -> Remote)
    requires i < |cs| && Waits(cs[i])
    ensures var r := DispatchFrom(cs, i, pf, ready, io);
      r.status.Pass? ==>
        && (pf in ready ==> r.cs[i] == Handle(cs[i], io(i)).conn)
        && (pf !in ready ==> r.cs[i] == cs[i])
  {
    if pf in ready {
      var s := Handle(cs[i], io(i));
      if s.status.Pass? {
        assert DispatchFrom(cs[i := s.conn], i + 1, pf + 1, ready, io).cs[i] == s.conn;
      }
    }
  }

  /** Handling connection i leaves the wait set from i + 1 on, and connection j > i, as they were. */
  lemma DispatchFrameAfter(cs: seq<Conn>, ds: seq<Conn>, i: nat, j: nat)
    requires i < j < |cs| == |ds| && ds == cs[i := ds[i]]
    ensures ds[j] == cs[j]
    ensures WaitFrom(ds, i + 1) == WaitFrom(cs, i + 1) && WaitFrom(ds, j) == WaitFrom(cs, j)
  {
    assert ds[i + 1..] == cs[i + 1..];
    WaitFromFrame(ds, cs, i + 1);
    assert ds[j..] == cs[j..];
    WaitFromFrame(ds, cs, j);
  }

  // -------------------------------------------------------------- recheck

  /**
   * One tagged connection in the recheck pass: a connection whose login
   * just finished gets the query, then the timeouts are checked.
   */
  function Revisit(cf: Config, retBinary: bool, c: Conn, now: int, local: Local, rem: Remote): (r: Step)
    ensures r.status.Pass? ==> r.conn.state != CReady && CheckTimeouts(cf, r.conn, now) == Pass
    ensures r.status.Pass? && c.state != CReady ==> r.conn == c
    ensures c.state != CReady ==> r.conn == c && r.status == CheckTimeouts(cf, c, now)
    ensures RoundKept(c, r.conn)
    ensures ConnOk(c) ==> ConnOk(r.conn)
  {
    var s := if c.state == CReady then (var q := Send(cf, retBinary, c, now, local, rem); Step(q.conn, q.status)) else Step(c, Pass);
    if s.status.Fail? then s
    else Step(s.conn, CheckTimeouts(cf, s.conn, now))
  }

  /** Number of tagged connections that are not DONE: remote_execute's pending count. */
  function Pending(cs: seq<Conn>): nat
  {
    if cs == [] then 0
    else Pending(cs[..|cs| - 1]) + (if cs[|cs| - 1].runOn && cs[|cs| - 1].state != CDone then 1 else 0)
  }

  /** No tagged connection is pending exactly when all of them are DONE. */
  lemma {:induction false} PendingZero(cs: seq<Conn>)
    ensures Pending(cs) == 0 <==> forall j :: 0 <= j < |cs| && cs[j].runOn ==> cs[j].state == CDone
  {
    if cs != [] {
      var p := cs[..|cs| - 1];
      PendingZero(p);
      assert forall j :: 0 <= j < |p| ==> p[j] == cs[j];
    }
  }

  /** The recheck pass of remote_execute from connection i on. */
  function RecheckFrom(cf: Config, retBinary: bool, local: Local, cs: seq<Conn>, i: nat, now: int, submit: nat -> Remote): (r: Sweep)
    requires i <= |cs|
    ensures RoundFrame(cs, r.cs)
    ensures forall j :: 0 <= j < |cs| ==>
      r.cs[j] == cs[j] || (i <= j && cs[j].runOn && r.cs[j] == Revisit(cf, retBinary, cs[j], now, local, submit(j)).conn)
    ensures r.status.Pass? ==> forall j :: i <= j < |cs| && cs[j].runOn ==>
      r.cs[j].state != CReady && CheckTimeouts(cf, r.cs[j], now) == Pass
    ensures AllOk(cs) ==> AllOk(r.cs)
    decreases |cs| - i
  {
    if i == |cs| then Sweep(cs, Pass)
    else if !cs[i].runOn then RecheckFrom(cf, retBinary, local, cs, i + 1, now, submit)
    else
      var s := Revisit(cf, retBinary, cs[i], now, local, submit(i));
      if s.status.Fail? then Sweep(cs[i := s.conn], s.status)
      else RecheckFrom(cf, retBinary, local, cs[i := s.conn], i + 1, now, submit)
  }

  /** One connection of the recheck pass, when it does not fail. */
  lemma RecheckStep(cf: Config, retBinary: bool, local: Local, cs: seq<Conn>, i: nat, now: int, submit: nat -> Remote)
    requires i < |cs|
    ensures var s := Revisit(cf, retBinary, cs[i], now, local, submit(i));
      RecheckFrom(cf, retBinary, local, cs, i, now, submit)
        == if !cs[i].runOn then RecheckFrom(cf, retBinary, local, cs, i + 1, now, submit)
           else if s.status.Fail? then Sweep(cs[i := s.conn], s.status)
           else RecheckFrom(cf, retBinary, local, cs[i := s.conn], i + 1, now, submit)
  {
  }

  /** Pending grows by the connection appended. */
  lemma PendingStep(before: seq<Conn>, i: nat, c: Conn)
    requires i < |before|
    ensures var cs := before[i := c];
      Pending(cs[..i + 1]) == Pending(before[..i]) + (if c.runOn && c.state != CDone then 1 else 0)
  {
    var cs := before[i := c];
    assert cs[..i + 1][..i] == before[..i];
  }

  // ---------------------------------------------------------- wait loop

  /**
   * One turn of the wait loop: whether the caller cancelled, what poll()
   * said, and the answers of the transport for the connections handled and
   * the queries sent in this turn.
   */
  datatype Wakeup = Wakeup(interrupted: bool, poll: PollOutcome, io: nat -> Remote, now: int, submit: nat -> Remote)

  /**
   * One turn after the cancellation check, as written: a poll() that timed
   * out or was interrupted returns 0 and the loop continues without the
   * recheck pass, so no timeout is looked at in that turn.
   */
  function TurnAsWritten(cf: Config, retBinary: bool, local: Local, cs: seq<Conn>, w: Wakeup): Sweep
  {
    match w.poll
    case PollError => Sweep(cs, Fail(PollFailed))
    case PollTimeout => Sweep(cs, Pass)
    case PollInterrupted => Sweep(cs, Pass)
    case PollEvents(ready) =>
      var d := DispatchFrom(cs, 0, 0, ready, w.io);
      if d.status.Fail? then d
      else RecheckFrom(cf, retBinary, local, d.cs, 0, w.now, w.submit)
  }

  /**
   * One turn with the recheck pass run after every wakeup, events or not,
   * so that a connection that never becomes ready still times out.
   */
  function Turn(cf: Config, retBinary: bool, local: Local, cs: seq<Conn>, w: Wakeup): (r: Sweep)
    ensures RoundFrame(cs, r.cs)
    ensures AllOk(cs) ==> AllOk(r.cs)
    ensures r.status.Pass? ==> forall j :: 0 <= j < |cs| && cs[j].runOn ==>
      r.cs[j].state != CReady && CheckTimeouts(cf, r.cs[j], w.now) == Pass
    ensures w.poll.PollError? ==> r == Sweep(cs, Fail(PollFailed))
  {
    match w.poll
    case PollError => Sweep(cs, Fail(PollFailed))
    case PollTimeout => RecheckFrom(cf, retBinary, local, cs, 0, w.now, w.submit)
    case PollInterrupted => RecheckFrom(cf, retBinary, local, cs, 0, w.now, w.submit)
    case PollEvents(ready) =>
      var d := DispatchFrom(cs, 0, 0, ready, w.io);
      if d.status.Fail? then d
      else
        var r := RecheckFrom(cf, retBinary, local, d.cs, 0, w.now, w.submit);
        RoundFrameTrans(cs, d.cs, r.cs);
        r
  }

  /**
   * The while (pending) loop of remote_execute, fed one wakeup per turn: it
   * ends when a turn leaves no tagged connection short of DONE, on the first
   * failure, on cancellation, or (a modelling outcome) when the wakeups run
   * out.
   */
  function Wait(cf: Config, retBinary: bool, local: Local, cs: seq<Conn>, rounds: seq<Wakeup>): (r: Sweep)
    ensures RoundFrame(cs, r.cs)
    ensures AllOk(cs) ==> AllOk(r.cs)
    ensures r.status.Pass? ==> forall j :: 0 <= j < |cs| && cs[j].runOn ==> r.cs[j].state == CDone
    decreases |rounds|
  {
    if rounds == [] then Sweep(cs, Fail(EventsExhausted))
    else if rounds[0].interrupted then Sweep(cs, Fail(Canceled))
    else
      var t := Turn(cf, retBinary, local, cs, rounds[0]);
      if t.status.Fail? then t
      else if Pending(t.cs) == 0 then
        PendingZero(t.cs);
        t
      else
        var r := Wait(cf, retBinary, local, t.cs, rounds[1..]);
        RoundFrameTrans(cs, t.cs, r.cs);
        r
  }

  /** One turn of the wait loop, unfolded. */
  lemma WaitStep(cf: Config, retBinary: bool, local: Local, cs: seq<Conn>, rounds: seq<Wakeup>)
    requires rounds != [] && !rounds[0].interrupted
    ensures var t := Turn(cf, retBinary, local, cs, rounds[0]);
      Wait(cf, retBinary, local, cs, rounds)
        == if t.status.Fail? || Pending(t.cs) == 0 then t else Wait(cf, retBinary, local, t.cs, rounds[1..])
  {
  }

  /**
   * A connection that never gets an event: with its query timeout expired,
   * the loop as written lets a turn pass without error, and the loop goes
   * on for as many turns as poll() keeps timing out.
   */
  lemma SilentShardNeverTimesOut(cf: Config, retBinary: bool, local: Local, cs: seq<Conn>, w: Wakeup, j: nat)
    requires 0 <= j < |cs| && cs[j].runOn && IsQuerying(cs[j].state)
    requires cf.queryTimeout > 0 && w.now - cs[j].queryTime > cf.queryTimeout
    requires w.poll == PollTimeout
    ensures TurnAsWritten(cf, retBinary, local, cs, w) == Sweep(cs, Pass)
    ensures CheckTimeouts(cf, cs[j], w.now) == Fail(QueryTimeout)
  {
  }

  /**
   * With the recheck run after a timed-out poll() the same turn fails, and
   * it fails with the timeout unless an earlier connection failed first.
   */
  lemma SilentShardTimesOut(cf: Config, retBinary: bool, local: Local, cs: seq<Conn>, w: Wakeup, j: nat)
    requires 0 <= j < |cs| && cs[j].runOn && IsQuerying(cs[j].state)
    requires cf.queryTimeout > 0 && w.now - cs[j].queryTime > cf.queryTimeout
    requires w.poll == PollTimeout
    ensures Turn(cf, retBinary, local, cs, w).status.Fail?
  {
  }

  /**
   * The while (pending) loop as written: pending starts at 1 and is
   * recounted only in the recheck pass, which a timed-out or interrupted
   * poll() skips, so such a turn keeps the old count.
   */
  function WaitAsWritten(cf: Config, retBinary: bool, local: Local, cs: seq<Conn>, rounds: seq<Wakeup>, pending: nat): Sweep
    decreases |rounds|
  {
    if pending == 0 then Sweep(cs, Pass)
    else if rounds == [] then Sweep(cs, Fail(EventsExhausted))
    else if rounds[0].interrupted then Sweep(cs, Fail(Canceled))
    else if rounds[0].poll.PollTimeout? || rounds[0].poll.PollInterrupted? then
      WaitAsWritten(cf, retBinary, local, cs, rounds[1..], pending)
    else
      var t := TurnAsWritten(cf, retBinary, local, cs, rounds[0]);
      if t.status.Fail? then t
      else WaitAsWritten(cf, retBinary, local, t.cs, rounds[1..], Pending(t.cs))
  }

  /**
   * With no tagged connection the poll set is empty, so poll() can only
   * time out or be interrupted; the loop as written then never recounts
   * pending and ends only when the call is cancelled (or, in this model,
   * when the wakeups run out), with nothing changed.
   */
  lemma {:induction false} NoTaggedSpinsAsWritten(cf: Config, retBinary: bool, local: Local, cs: seq<Conn>,
                                                   rounds: seq<Wakeup>, pending: nat)
    requires forall j :: 0 <= j < |cs| ==> !cs[j].runOn
    requires pending > 0
    requires forall k :: 0 <= k < |rounds| ==> rounds[k].poll.PollTimeout? || rounds[k].poll.PollInterrupted?
    ensures WaitFrom(cs, 0) == []
    ensures var r := WaitAsWritten(cf, retBinary, local, cs, rounds, pending);
      r.cs == cs && r.status.Fail? && r.status.error in {EventsExhausted, Canceled}
    decreases |rounds|
  {
    WaitUntagged(cs, 0);
    if rounds != [] && !rounds[0].interrupted {
      forall k | 0 <= k < |rounds[1..]|
        ensures rounds[1..][k].poll.PollTimeout? || rounds[1..][k].poll.PollInterrupted?
      {
        assert rounds[1..][k] == rounds[k + 1];
      }
      NoTaggedSpinsAsWritten(cf, retBinary, local, cs, rounds[1..], pending);
    }
  }

  /** No connection is tagged from i on: the poll set is empty. */
  lemma {:induction false} WaitUntagged(cs: seq<Conn>, i: nat)
    requires i <= |cs| && forall j :: i <= j < |cs| ==> !cs[j].runOn
    ensures WaitFrom(cs, i) == []
    decreases |cs| - i
  {
    if i < |cs| {
      WaitUntagged(cs, i + 1);
    }
  }

  /** No connection is tagged from i on: the launch loop passes and changes nothing. */
  lemma {:induction false} LaunchUntagged(cf: Config, retBinary: bool, local: Local, cs: seq<Conn>, i: nat, now: int,
                                          launch: nat -> Remote)
    requires i <= |cs| && forall j :: i <= j < |cs| ==> !cs[j].runOn
    ensures LaunchFrom(cf, retBinary, local, cs, i, now, launch) == Sweep(cs, Pass)
    decreases |cs| - i
  {
    if i < |cs| {
      LaunchUntagged(cf, retBinary, local, cs, i + 1, now, launch);
    }
  }

  /** No connection is tagged from i on: the recheck pass passes and changes nothing. */
  lemma {:induction false} RecheckUntagged(cf: Config, retBinary: bool, local: Local, cs: seq<Conn>, i: nat, now: int,
                                           submit: nat -> Remote)
    requires i <= |cs| && forall j :: i <= j < |cs| ==> !cs[j].runOn
    ensures RecheckFrom(cf, retBinary, local, cs, i, now, submit) == Sweep(cs, Pass)
    decreases |cs| - i
  {
    if i < |cs| {
      RecheckUntagged(cf, retBinary, local, cs, i + 1, now, submit);
    }
  }

  /** No connection is tagged from i on: no rows are counted. */
  lemma {:induction false} RowsUntagged(cs: seq<Conn>, i: nat)
    requires i <= |cs| && forall j :: i <= j < |cs| ==> !cs[j].runOn
    ensures RowsFrom(cs, i) == 0
    decreases |cs| - i
  {
    if i < |cs| {
      RowsUntagged(cs, i + 1);
    }
  }

  /**
   * With the recheck run after every wakeup, a call that tagged no
   * connection (and so holds no result) ends after its first wakeup,
   * successfully, with nothing changed and no rows.
   */
  lemma NoTaggedPasses(cf: Config, retBinary: bool, local: Local, cs: seq<Conn>, total: int, now: int,
                       launch: nat -> Remote, rounds: seq<Wakeup>)
    requires forall j :: 0 <= j < |cs| ==> !cs[j].runOn && cs[j].res.None?
    requires rounds != [] && !rounds[0].interrupted
    requires rounds[0].poll.PollTimeout? || rounds[0].poll.PollInterrupted?
    ensures RemoteExecute(cf, retBinary, local, cs, total, now, launch, rounds) == Outcome(cs, Pass, total)
  {
    LaunchUntagged(cf, retBinary, local, cs, 0, now, launch);
    RecheckUntagged(cf, retBinary, local, cs, 0, rounds[0].now, rounds[0].submit);
    PendingZero(cs);
    WaitStep(cf, retBinary, local, cs, rounds);
    RowsUntagged(cs, 0);
  }

  // --------------------------------------------------------------- review

  /** Running row total of the review pass, and its outcome. */
  datatype Tally = Tally(total: int, status: Status)

  /** Sum of the row counts of the tagged connections of cs[i..]. */
  function RowsFrom(cs: seq<Conn>, i: nat): int
    requires i <= |cs|
    decreases |cs| - i
  {
    if i == |cs| then 0
    else (if cs[i].runOn && cs[i].res.Some? then |cs[i].res.value.rows| else 0) + RowsFrom(cs, i + 1)
  }

  /** A connection passes the post-loop check. */
  predicate Finished(c: Conn)
  {
    (c.runOn <==> c.res.Some?) && (c.runOn ==> c.state == CDone && c.res.value.status == TuplesOk)
  }

  /**
   * The post-loop review of remote_execute from connection i on: every
   * connection must hold a result exactly when tagged, every tagged one must
   * be DONE with a row set, and the row counts are summed.
   */
  function ReviewFrom(cs: seq<Conn>, i: nat, total: int): (r: Tally)
    requires i <= |cs|
    ensures r.status.Pass? <==> forall j :: i <= j < |cs| ==> Finished(cs[j])
    ensures r.status.Pass? ==> r.total == total + RowsFrom(cs, i)
    ensures r.status != Fail(LostResult)
    ensures AllOk(cs) ==> r.status != Fail(RemoteResultError)
    decreases |cs| - i
  {
    if i == |cs| then Tally(total, Pass)
    else
      var c := cs[i];
      if c.runOn != c.res.Some? then Tally(total, Fail(RunOnMismatch))
      else if !c.runOn then ReviewFrom(cs, i + 1, total)
      else if c.state != CDone then Tally(total, Fail(UnfinishedConnection))
      else if c.res.None? then Tally(total, Fail(LostResult))
      else if c.res.value.status != TuplesOk then Tally(total, Fail(RemoteResultError))
      else ReviewFrom(cs, i + 1, total + |c.res.value.rows|)
  }

  // ------------------------------------------------------ remote_execute

  /** Connections, outcome, and ret_total afterwards. */
  datatype Outcome = Outcome(cs: seq<Conn>, status: Status, total: int)

  /** remote_execute, starting from ret_total = total: launch, wait, review. */
  function RemoteExecute(cf: Config, retBinary: bool, local: Local, cs: seq<Conn>, total: int, now: int,
                         launch: nat -> Remote, rounds: seq<Wakeup>): (r: Outcome)
    ensures RoundFrame(cs, r.cs)
    ensures AllOk(cs) ==> AllOk(r.cs)
  {
    var l := LaunchFrom(cf, retBinary, local, cs, 0, now, launch);
    if l.status.Fail? then Outcome(l.cs, l.status, total)
    else
      var w := Wait(cf, retBinary, local, l.cs, rounds);
      RoundFrameTrans(cs, l.cs, w.cs);
      if w.status.Fail? then Outcome(w.cs, w.status, total)
      else
        var v := ReviewFrom(w.cs, 0, total);
        Outcome(w.cs, v.status, v.total)
  }

  /**
   * A call that succeeds leaves every tagged connection DONE with a row set,
   * every other connection untouched and without a result, and adds the
   * row counts of the tagged connections.
   */
  lemma RemoteExecuteComplete(cf: Config, retBinary: bool, local: Local, cs: seq<Conn>, total: int, now: int,
                              launch: nat -> Remote, rounds: seq<Wakeup>)
    requires AllOk(cs)
    ensures var r := RemoteExecute(cf, retBinary, local, cs, total, now, launch, rounds);
      r.status.Pass? ==>
        && (forall j :: 0 <= j < |cs| && cs[j].runOn ==> r.cs[j].state == CDone && r.cs[j].res.Some?)
        && (forall j :: 0 <= j < |cs| && !cs[j].runOn ==> r.cs[j] == cs[j] && cs[j].res.None?)
        && r.total == total + RowsFrom(r.cs, 0)
  {
    var r := RemoteExecute(cf, retBinary, local, cs, total, now, launch, rounds);
    if r.status.Pass? {
      forall j | 0 <= j < |cs|
        ensures Finished(r.cs[j])
      {
      }
    }
  }

  /**
   * Once tagged connections hold their results exactly, the review can only
   * fail for a connection the wait loop did not finish: the result checks
   * it makes after the run_on check never fire.
   */
  lemma ReviewAfterWait(cs: seq<Conn>)
    requires AllOk(cs)
    requires forall j :: 0 <= j < |cs| ==> (cs[j].runOn <==> cs[j].res.Some?)
    ensures ReviewFrom(cs, 0, 0).status.Pass? <==> forall j :: 0 <= j < |cs| && cs[j].runOn ==> cs[j].state == CDone
  {
  }

  // ------------------------------------------------------- remote_cancel

  /** remote_cancel's targets: every connection, tagged or not, with I/O in flight. */
  predicate CancelTarget(c: Conn)
  {
    c.state != CNone && c.state != CReady && c.state != CDone
  }

  /**
   * The connections a cancel request goes to, in array order: each of them
   * is a target, and every target is among them.
   */
  predicate CancelList(cs: seq<Conn>, targets: seq<nat>)
  {
    && (forall k :: 0 <= k < |targets| ==> targets[k] < |cs| && CancelTarget(cs[targets[k]]))
    && (forall k, l :: 0 <= k < l < |targets| ==> targets[k] < targets[l])
    && (forall j :: 0 <= j < |cs| && CancelTarget(cs[j]) ==> j in targets)
  }

  // ---------------------------------------------------------- plproxy_exec

  /** plproxy_clean_results on the records: no result, cursor 0, untagged; states stay. */
  function Cleaned(cs: seq<Conn>): (r: seq<Conn>)
    ensures |r| == |cs|
    ensures forall j :: 0 <= j < |cs| ==> r[j] == cs[j].(res := None, pos := 0, runOn := false)
  {
    seq(|cs|, j requires 0 <= j < |cs| => cs[j].(res := None, pos := 0, runOn := false))
  }

  /** The connections the partition map gives for the tagged slots. */
  function Image(slots: set<nat>, partMap: seq<nat>): set<nat>
  {
    set s | s in slots && s < |partMap| :: partMap[s]
  }

  /** The records with the connections of hit tagged as well. */
  function Marked(cs: seq<Conn>, hit: set<nat>): (r: seq<Conn>)
    ensures |r| == |cs|
    ensures forall j :: 0 <= j < |cs| ==> r[j] == cs[j].(runOn := cs[j].runOn || j in hit)
  {
    seq(|cs|, j requires 0 <= j < |cs| => cs[j].(runOn := cs[j].runOn || j in hit))
  }

  /**
   * plproxy_exec without the argument marshalling: clean, tag, and, when
   * tagging succeeded, run remote_execute from ret_total = 0.
   */
  function Call(cf: Config, partMap: seq<nat>, partCount: nat, mask: nat, run: RunType, retSet: bool,
                retBinary: bool, local: Local, cs: seq<Conn>, now: int,
                launch: nat -> Remote, rounds: seq<Wakeup>): (r: Outcome)
  {
    var t := Tags(run, partCount, mask, retSet);
    var m := Marked(Cleaned(cs), Image(t.slots, partMap));
    if t.status.Fail? then Outcome(m, t.status, 0)
    else RemoteExecute(cf, retBinary, local, m, 0, now, launch, rounds)
  }

  /**
   * A call that succeeds ran on exactly the connections its partitions map
   * to: each of them is DONE with a row set, every other one is left in its
   * state without a result, and ret_total is the sum of the row counts.
   */
  lemma CallComplete(cf: Config, partMap: seq<nat>, partCount: nat, mask: nat, run: RunType, retSet: bool,
                     retBinary: bool, local: Local, cs: seq<Conn>, now: int,
                     launch: nat -> Remote, rounds: seq<Wakeup>)
    requires AllOk(cs)
    ensures var r := Call(cf, partMap, partCount, mask, run, retSet, retBinary, local, cs, now, launch, rounds);
      var hit := Image(Tags(run, partCount, mask, retSet).slots, partMap);
      r.status.Pass? ==>
        && |r.cs| == |cs|
        && (forall j :: 0 <= j < |cs| ==> (r.cs[j].runOn <==> j in hit))
        && (forall j :: 0 <= j < |cs| && j in hit ==> r.cs[j].state == CDone && r.cs[j].res.Some?)
        && (forall j :: 0 <= j < |cs| && j !in hit ==> r.cs[j].state == cs[j].state && r.cs[j].res.None?)
        && r.total == RowsFrom(r.cs, 0)
  {
    var t := Tags(run, partCount, mask, retSet);
    var m := Marked(Cleaned(cs), Image(t.slots, partMap));
    assert AllOk(m) by {
      forall j | 0 <= j < |m| ensures ConnOk(m[j]) {
        assert ConnOk(cs[j]);
      }
    }
    if t.status.Pass? {
      RemoteExecuteComplete(cf, retBinary, local, m, 0, now, launch, rounds);
    }
  }

  /**
   * The reachable case of a call with nothing tagged: a set-returning
   * function whose hash query returns no rows.  With the recheck run after
   * every wakeup it ends at the first wakeup with success and no rows.
   */
  lemma EmptyHashCallPasses(cf: Config, partMap: seq<nat>, partCount: nat, mask: nat, htype: HashType,
                            retBinary: bool, local: Local, cs: seq<Conn>, now: int,
                            launch: nat -> Remote, rounds: seq<Wakeup>)
    requires rounds != [] && !rounds[0].interrupted
    requires rounds[0].poll.PollTimeout? || rounds[0].poll.PollInterrupted?
    ensures var r := Call(cf, partMap, partCount, mask, RHash(htype, []), true, retBinary, local, cs, now, launch, rounds);
      r == Outcome(Cleaned(cs), Pass, 0)
  {
    var t := Tags(RHash(htype, []), partCount, mask, true);
    assert t == Tagging({}, Pass);
    assert Image({}, partMap) == {};
    var m := Marked(Cleaned(cs), {});
    assert m == Cleaned(cs);
    NoTaggedPasses(cf, retBinary, local, m, 0, now, launch, rounds);
  }

  /**
   * An exact partition number outside [0, part_count) fails before any
   * connection is tagged or touched.
   */
  lemma ExactOutOfRange(cf: Config, partMap: seq<nat>, partCount: nat, mask: nat, nr: int, retSet: bool,
                        retBinary: bool, local: Local, cs: seq<Conn>, now: int,
                        launch: nat -> Remote, rounds: seq<Wakeup>)
    requires nr < 0 || nr >= partCount
    ensures var r := Call(cf, partMap, partCount, mask, RExact(nr), retSet, retBinary, local, cs, now, launch, rounds);
      r.status == Fail(PartOutOfRange) && r.cs == Cleaned(cs)
  {
    var m := Marked(Cleaned(cs), Image({}, partMap));
    assert m == Cleaned(cs);
  }
}
