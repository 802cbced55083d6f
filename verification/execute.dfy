/**
 * The executor of execute.c on a cluster: the connection list is an array
 * of records updated in place, and ret_total / ret_cur_conn are fields.
 * Every method is proved equal to the pure round functions of Round and
 * ConnMachine, whose properties are proved there.
 */
module Execute {
  import opened ProxyTypes
  import opened ConnMachine
  import opened Round
  import Branch

  class Cluster {
    /** conn_list: one record per connection, in partition order. */
    const conns: array<Conn>
    /** part_map: partition slot to connection index. */
    const partMap: seq<nat>
    const partCount: nat
    const partMask: nat
    const config: Config
    /** Rows still to hand out in this call. */
    var retTotal: int
    /** Connection the result stream is reading. */
    var retCurConn: int

    /**
     * The partition map covers every slot up to the mask and part_count,
     * every slot names a connection, the stream cursor is within the list,
     * and every record keeps the connection invariant.
     */
    predicate Valid()
      reads this, conns
    {
      && partMask < |partMap|
      && partCount <= |partMap|
      && (forall s :: 0 <= s < |partMap| ==> partMap[s] < conns.Length)
      && 0 <= retCurConn <= conns.Length
      && AllOk(conns[..])
    }

    constructor (cs: seq<Conn>, partMap: seq<nat>, partCount: nat, partMask: nat, config: Config)
      requires partMask < |partMap| && partCount <= |partMap|
      requires forall s :: 0 <= s < |partMap| ==> partMap[s] < |cs|
      requires AllOk(cs)
      ensures Valid()
      ensures conns[..] == cs && this.partMap == partMap && this.partCount == partCount
      ensures this.partMask == partMask && this.config == config
      ensures retTotal == 0 && retCurConn == 0
    {
      conns := new Conn[|cs|](j requires 0 <= j < |cs| => cs[j]);
      this.partMap := partMap;
      this.partCount := partCount;
      this.partMask := partMask;
      this.config := config;
      retTotal := 0;
      retCurConn := 0;
    }

    // -------------------------------------------------- one connection

    /** flush_connection */
    method FlushConnection(i: nat, flushed: int) returns (status: Status)
      requires i < conns.Length
      modifies conns
      ensures var s := Flush(old(conns[i]), flushed);
        conns[..] == old(conns[..])[i := s.conn] && status == s.status
    {
      if flushed > 0 {
        conns[i] := conns[i].(state := CQueryWrite);
        status := Pass;
      } else if flushed == 0 {
        conns[i] := conns[i].(state := CQueryRead);
        status := Pass;
      } else {
        status := Fail(FlushFailed);
      }
    }

    /** tune_connection */
    method TuneConnection(i: nat, local: Local, rem: Remote) returns (status: Status, tuned: bool)
      requires i < conns.Length
      modifies conns
      ensures var t := Tune(old(conns[i]), local, rem);
        conns[..] == old(conns[..])[i := t.conn] && status == t.status && tuned == t.tuned
    {
      var same := Branch.CmpBranch(rem.serverVersion, local.version);
      conns[i] := conns[i].(sameVer := same);
      var mismatch := rem.clientEncoding.Some? && rem.clientEncoding.value != local.encoding;
      if mismatch && conns[i].tuning {
        return Fail(TuningDidNotApply), false;
      }
      if mismatch {
        conns[i] := conns[i].(tuning := true, state := CQueryWrite);
        if !rem.sendOk {
          return Fail(SendFailed), true;
        }
        status := FlushConnection(i, rem.flush);
        return status, true;
      }
      conns[i] := conns[i].(tuning := false);
      return Pass, false;
    }

    /** send_query; query tells whether the query went out and in which result format. */
    method SendQuery(i: nat, retBinary: bool, now: int, local: Local, rem: Remote) returns (status: Status, query: Option<bool>)
      requires i < conns.Length
      modifies conns
      ensures var s := Send(config, retBinary, old(conns[i]), now, local, rem);
        conns[..] == old(conns[..])[i := s.conn] && status == s.status && query == s.query
    {
      conns[i] := conns[i].(queryTime := now);
      var tuned;
      status, tuned := TuneConnection(i, local, rem);
      if status.Fail? {
        return status, None;
      }
      if conns[i].tuning {
        return Pass, None;
      }
      var binary := !config.disableBinary && conns[i].sameVer && retBinary;
      conns[i] := conns[i].(state := CQueryWrite);
      query := Some(binary);
      if !rem.sendOk {
        return Fail(SendFailed), query;
      }
      status := FlushConnection(i, rem.flush);
    }

    /** prepare_conn, with the tuning flag cleared when a new connection is launched. */
    method PrepareConn(i: nat, now: int, rem: Remote) returns (status: Status)
      requires i < conns.Length
      modifies conns
      ensures var p := Prepare(config, old(conns[i]), now, rem);
        conns[..] == old(conns[..])[i := p.conn] && status == p.status
    {
      var c := conns[i];
      ghost var p := Prepare(config, c, now, rem);
      if c.state == CDone {
        c := c.(state := CReady);
      }
      if c.state == CReady {
        var keep := CheckOldConn(config, c, now, rem);
        if keep.Err? {
          conns[i] := c;
          return Fail(keep.error);
        }
        if keep.value {
          conns[i] := c;
          return Pass;
        }
      }
      // drop whatever was there, then launch a new connection
      ghost var l := ConnMachine.Launch(c.(state := CNone), now, rem);
      assert p == l;
      c := c.(state := CNone, connectTime := now, tuning := false);
      match rem.start {
        case StartNoMemory =>
          status := Fail(OutOfMemory);
        case StartBad =>
          c := c.(state := CConnectWrite);
          status := Fail(ConnectStartFailed);
        case Started =>
          c := c.(state := CConnectWrite);
          status := Pass;
      }
      conns[i] := c;
    }

    /** another_result; next is what PQgetResult returns (None for NULL). */
    method AnotherResult(i: nat, next: Option<PgResult>) returns (status: Status, more: bool)
      requires i < conns.Length
      modifies conns
      ensures var f := TakeResult(old(conns[i]), next);
        conns[..] == old(conns[..])[i := f.conn] && status == f.status && more == f.more
    {
      if next.None? {
        conns[i] := conns[i].(state := if conns[i].tuning then CReady else CDone);
        return Pass, false;
      }
      more := true;
      match next.value.status {
        case TuplesOk =>
          if conns[i].res.Some? {
            return Fail(DoubleResult), true;
          }
          conns[i] := conns[i].(res := next);
          status := Pass;
        case CommandOk =>
          status := Pass;
        case OtherStatus =>
          status := Fail(RemoteError);
      }
    }

    /**
     * handle_conn.  In QUERY_READ the results rem.results are available in
     * turn; after them PQgetResult returns NULL when rem.finished, and
     * PQisBusy holds otherwise.
     */
    method HandleConn(i: nat, rem: Remote) returns (status: Status)
      requires i < conns.Length
      modifies conns
      ensures var h := Handle(old(conns[i]), rem);
        conns[..] == old(conns[..])[i := h.conn] && status == h.status
    {
      match conns[i].state
      case CConnectRead | CConnectWrite =>
        match rem.connectPoll {
          case PollingWriting =>
            conns[i] := conns[i].(state := CConnectWrite);
            status := Pass;
          case PollingReading =>
            conns[i] := conns[i].(state := CConnectRead);
            status := Pass;
          case PollingOk =>
            conns[i] := conns[i].(state := CReady);
            status := Pass;
          case PollingActive =>
            status := Fail(ConnectPollFailed);
          case PollingFailed =>
            status := Fail(ConnectPollFailed);
        }
      case CQueryWrite =>
        status := FlushConnection(i, rem.flush);
      case CQueryRead =>
        if !rem.consumeOk {
          return Fail(ConsumeInputFailed);
        }
        status := DrainResults(i, rem.results, rem.finished);
      case CNone =>
        status := Pass;
      case CReady =>
        status := Pass;
      case CDone =>
        status := Pass;
    }

    /** One pass of the another_result loop, against what draining the rest leads to. */
    method DrainOne(i: nat, results: seq<PgResult>, k: nat, finished: bool, ghost target: Step) returns (status: Status, more: bool)
      requires i < conns.Length && k <= |results| && (k < |results| || finished)
      requires Drain(conns[i], results[k..], finished) == target
      modifies conns
      ensures conns[..] == old(conns[..])[i := conns[i]]
      ensures status.Fail? || !more ==> conns[i] == target.conn && status == target.status
      ensures status.Pass? && more ==> k < |results| && Drain(conns[i], results[k + 1..], finished) == target
    {
      var next := if k < |results| then Some(results[k]) else None;
      if k < |results| {
        assert results[k..][0] == results[k] && results[k..][1..] == results[k + 1..];
      }
      status, more := AnotherResult(i, next);
    }

    /**
     * The result loop of handle_conn: results are fetched with
     * another_result until PQisBusy (the results ran out and the end has not
     * arrived) or until PQgetResult returns NULL (finished).
     */
    method DrainResults(i: nat, results: seq<PgResult>, finished: bool) returns (status: Status)
      requires i < conns.Length
      modifies conns
      ensures var d := Drain(old(conns[i]), results, finished);
        conns[..] == old(conns[..])[i := d.conn] && status == d.status
    {
      ghost var target := Drain(conns[i], results, finished);
      var k: nat := 0;
      status := Pass;
      while true
        invariant k <= |results|
        invariant conns[..] == old(conns[..])[i := conns[i]]
        invariant status == Pass
        invariant Drain(conns[i], results[k..], finished) == target
        decreases |results| - k
      {
        if k == |results| && !finished {
          assert results[k..] == [];
          break;  // PQisBusy: the rest has not arrived
        }
        var st, more := DrainOne(i, results, k, finished, target);
        if st.Fail? || !more {
          return st;
        }
        k := k + 1;
      }
    }

    // ------------------------------------------------- the round

    /** plproxy_clean_results: drop every result and tag, reset the stream; states stay. */
    method CleanResults()
      requires Valid()
      modifies this, conns
      ensures Valid()
      ensures conns[..] == Cleaned(old(conns[..]))
      ensures retTotal == 0 && retCurConn == 0
    {
      retTotal := 0;
      retCurConn := 0;
      var i := 0;
      while i < conns.Length
        invariant 0 <= i <= conns.Length
        invariant retTotal == 0 && retCurConn == 0
        invariant forall j :: 0 <= j < i ==> conns[j] == old(conns[j]).(res := None, pos := 0, runOn := false)
        invariant forall j :: i <= j < conns.Length ==> conns[j] == old(conns[j])
      {
        conns[i] := conns[i].(res := None, pos := 0, runOn := false);
        i := i + 1;
      }
    }

    /** Tag the connection of partition slot s. */
    method TagSlot(s: nat, ghost c0: seq<Conn>, ghost done: set<nat>)
      requires Valid() && s < |partMap|
      requires conns[..] == Marked(c0, Image(done, partMap))
      modifies conns
      ensures Valid()
      ensures conns[..] == Marked(c0, Image(done + {s}, partMap))
    {
      MarkOne(c0, done, s, partMap);
      conns[partMap[s]] := conns[partMap[s]].(runOn := true);
    }

    /** One row of tag_hash_partitions: a NULL or a hash of the wrong type fails, otherwise its slot is tagged. */
    method HashOne(htype: HashType, rows: seq<Option<int>>, k: nat, ghost c0: seq<Conn>, ghost done: set<nat>)
        returns (status: Status, slot: nat)
      requires Valid() && k < |rows|
      requires conns[..] == Marked(c0, Image(done, partMap))
      modifies conns
      ensures Valid()
      ensures status.Fail? ==> conns[..] == old(conns[..]) && HashRows(htype, rows[k..], partMask) == Tagging({}, status)
      ensures status.Pass? ==> conns[..] == Marked(c0, Image(done + {slot}, partMap))
      ensures status.Pass? ==> var t := HashRows(htype, rows[k + 1..], partMask);
        HashRows(htype, rows[k..], partMask) == Tagging({slot} + t.slots, t.status)
    {
      assert rows[k..][0] == rows[k];
      if rows[k].None? {
        return Fail(HashNull), 0;
      }
      if htype == OtherType {
        return Fail(HashTypeInvalid), 0;
      }
      slot := HashSlot(rows[k].value, partMask);
      HashRowsStep(htype, rows, k, partMask);
      TagSlot(slot, c0, done);
      status := Pass;
    }

    /** tag_hash_partitions, given the type and rows the hash query returned. */
    method TagHashPartitions(htype: HashType, rows: seq<Option<int>>, retSet: bool) returns (status: Status)
      requires Valid()
      modifies conns
      ensures Valid()
      ensures var t := HashTagging(htype, rows, partMask, retSet);
        conns[..] == Marked(old(conns[..]), Image(t.slots, partMap)) && status == t.status
    {
      ghost var c0 := conns[..];
      ghost var done: set<nat> := {};
      MarkedNone(c0, partMap);
      var k: nat := 0;
      while k < |rows|
        invariant k <= |rows|
        invariant Valid()
        invariant conns[..] == Marked(c0, Image(done, partMap))
        invariant var t := HashRows(htype, rows[k..], partMask);
          HashRows(htype, rows, partMask) == Tagging(done + t.slots, t.status)
      {
        var slot;
        status, slot := HashOne(htype, rows, k, c0, done);
        if status.Fail? {
          return;
        }
        ghost var rest := HashRows(htype, rows[k + 1..], partMask).slots;
        assert done + ({slot} + rest) == (done + {slot}) + rest;
        done := done + {slot};
        k := k + 1;
      }
      assert rows[k..] == [];
      if |rows| != 1 && !retSet {
        return Fail(HashCountNotOne);
      }
      return Pass;
    }

    /** The tagging switch of plproxy_exec. */
    method Tag(run: RunType, retSet: bool) returns (status: Status)
      requires Valid()
      modifies conns
      ensures Valid()
      ensures var t := Tags(run, partCount, partMask, retSet);
        conns[..] == Marked(old(conns[..]), Image(t.slots, partMap)) && status == t.status
    {
      ghost var c0 := conns[..];
      MarkedNone(c0, partMap);
      match run
      case RHash(htype, rows) =>
        status := TagHashPartitions(htype, rows, retSet);
      case RAll =>
        var i := 0;
        while i < partCount
          invariant 0 <= i <= partCount
          invariant Valid()
          invariant conns[..] == Marked(c0, Image(Below(i), partMap))
        {
          TagSlot(i, c0, Below(i));
          i := i + 1;
        }
        status := Pass;
      case RExact(nr) =>
        if nr < 0 || nr >= partCount {
          return Fail(PartOutOfRange);
        }
        TagSlot(nr, c0, {});
        assert {} + {nr as nat} == {nr as nat};
        status := Pass;
      case RAny(rand) =>
        AndNatBound(rand, partMask);
        var s := AndNat(rand, partMask);
        TagSlot(s, c0, {});
        assert {} + {s} == {s};
        status := Pass;
      case RUnset =>
        status := Fail(RunTypeUnset);
    }

    /** One tagged connection of the launch loop: prepare_conn, then send_query when READY. */
    method StartConn(i: nat, retBinary: bool, local: Local, now: int, rem: Remote) returns (status: Status)
      requires i < conns.Length
      modifies conns
      ensures var s := Start(config, retBinary, old(conns[i]), now, local, rem);
        conns[..] == old(conns[..])[i := s.conn] && status == s.status
    {
      status := PrepareConn(i, now, rem);
      if status.Pass? && conns[i].state == CReady {
        var query;
        status, query := SendQuery(i, retBinary, now, local, rem);
      }
    }

    /** The launch loop of remote_execute: prepare every tagged connection, send where READY. */
    method Launch(retBinary: bool, local: Local, now: int, launch: nat -> Remote) returns (status: Status)
      modifies conns
      ensures var l := LaunchFrom(config, retBinary, local, old(conns[..]), 0, now, launch);
        conns[..] == l.cs && status == l.status
    {
      ghost var target := LaunchFrom(config, retBinary, local, conns[..], 0, now, launch);
      var i := 0;
      while i < conns.Length
        invariant 0 <= i <= conns.Length
        invariant LaunchFrom(config, retBinary, local, conns[..], i, now, launch) == target
      {
        if conns[i].runOn {
          status := StartConn(i, retBinary, local, now, launch(i));
          if status.Fail? {
            return;
          }
        }
        i := i + 1;
      }
      return Pass;
    }

    /** The wait-set construction of poll_conns. */
    method BuildWaitSet() returns (fds: seq<PollFd>)
      ensures fds == WaitFrom(conns[..], 0)
    {
      fds := [];
      var i := 0;
      while i < conns.Length
        invariant 0 <= i <= conns.Length
        invariant fds + WaitFrom(conns[..], i) == WaitFrom(conns[..], 0)
      {
        var c := conns[i];
        if c.runOn && InFlight(c.state) {
          var ev := if c.state == CConnectRead || c.state == CQueryRead then PollIn else PollOut;
          assert WaitFrom(conns[..], i) == [PollFd(i, ev)] + WaitFrom(conns[..], i + 1);
          fds := fds + [PollFd(i, ev)];
        }
        i := i + 1;
      }
      assert WaitFrom(conns[..], i) == [];
    }

    /**
     * One waiting connection of the dispatch loop: handle_conn when its
     * poll array entry reported an event.
     */
    method DispatchOne(i: nat, pf: nat, ready: set<nat>, io: nat -> Remote, ghost target: Sweep) returns (status: Status)
      requires i < conns.Length && Waits(conns[i])
      requires DispatchFrom(conns[..], i, pf, ready, io) == target
      modifies conns
      ensures status.Fail? ==> conns[..] == target.cs && status == target.status
      ensures status.Pass? ==> DispatchFrom(conns[..], i + 1, pf + 1, ready, io) == target
      ensures conns[i + 1..] == old(conns[i + 1..])
    {
      ghost var before := conns[..];
      status := Pass;
      if pf in ready {
        status := HandleConn(i, io(i));
      }
      assert conns[i + 1..] == before[i + 1..];
    }

    /**
     * One connection of the dispatch loop of poll_conns: a connection that
     * does not wait is passed over, a waiting one takes the next poll array
     * entry, which is its own, and is handled when that entry is ready.
     */
    method DispatchStep(fds: seq<PollFd>, i: nat, pf: nat, ready: set<nat>, io: nat -> Remote, ghost target: Sweep)
      returns (status: Status, next: nat, own: bool)
      requires i < conns.Length && pf <= |fds|
      requires fds[pf..] == WaitFrom(conns[..], i)
      requires DispatchFrom(conns[..], i, pf, ready, io) == target
      modifies conns
      ensures status.Fail? ==> conns[..] == target.cs && status == target.status
      ensures status.Pass? ==> next <= |fds| && fds[next..] == WaitFrom(conns[..], i + 1)
      ensures status.Pass? ==> DispatchFrom(conns[..], i + 1, next, ready, io) == target
      ensures own
    {
      own := true;
      if !(conns[i].runOn && InFlight(conns[i].state)) {
        SkipIdle(conns[..], i, pf, ready, io);
        return Pass, pf, own;
      }
      DispatchInStep(conns[..], fds, i, pf);
      own := fds[pf].conn == i;
      ghost var before := conns[..];
      status := DispatchOne(i, pf, ready, io, target);
      if status.Pass? {
        WaitFromFrame(before, conns[..], i + 1);
      }
      next := pf + 1;
    }

    /**
     * The dispatch loop of poll_conns over the wait set fds.  inStep says
     * the entry visited for each waiting connection was that connection's
     * own.
     */
    method Dispatch(fds: seq<PollFd>, ready: set<nat>, io: nat -> Remote) returns (status: Status, inStep: bool)
      requires fds == WaitFrom(conns[..], 0)
      modifies conns
      ensures var d := DispatchFrom(old(conns[..]), 0, 0, ready, io);
        conns[..] == d.cs && status == d.status
      ensures inStep
    {
      ghost var target := DispatchFrom(conns[..], 0, 0, ready, io);
      inStep := true;
      var i: nat, pf: nat := 0, 0;
      while i < conns.Length
        invariant 0 <= i <= conns.Length && pf <= |fds|
        invariant fds[pf..] == WaitFrom(conns[..], i)
        invariant DispatchFrom(conns[..], i, pf, ready, io) == target
        invariant inStep
      {
        status, pf, inStep := DispatchStep(fds, i, pf, ready, io, target);
        if status.Fail? {
          return;
        }
        i := i + 1;
      }
      return Pass, inStep;
    }

    /**
     * poll_conns: build the wait set, take poll()'s outcome, and hand each
     * ready connection to handle_conn.  A timed-out or interrupted poll()
     * lets the caller go on to the recheck.
     */
    method PollConns(poll: PollOutcome, io: nat -> Remote) returns (status: Status, inStep: bool)
      modifies conns
      ensures poll.PollEvents? ==>
        var d := DispatchFrom(old(conns[..]), 0, 0, poll.ready, io);
        conns[..] == d.cs && status == d.status
      ensures !poll.PollEvents? ==> conns[..] == old(conns[..])
      ensures poll.PollError? ==> status == Fail(PollFailed)
      ensures poll.PollTimeout? || poll.PollInterrupted? ==> status == Pass
      ensures inStep
    {
      var fds := BuildWaitSet();
      inStep := true;
      match poll
      case PollError =>
        status := Fail(PollFailed);
      case PollTimeout =>
        status := Pass;
      case PollInterrupted =>
        status := Pass;
      case PollEvents(ready) =>
        status, inStep := Dispatch(fds, ready, io);
    }

    /** One tagged connection in the recheck loop: send when its login finished, then check timeouts. */
    method RevisitConn(i: nat, retBinary: bool, local: Local, now: int, rem: Remote) returns (status: Status)
      requires i < conns.Length
      modifies conns
      ensures var r := Revisit(config, retBinary, old(conns[i]), now, local, rem);
        conns[..] == old(conns[..])[i := r.conn] && status == r.status
    {
      if conns[i].state == CReady {
        var query;
        status, query := SendQuery(i, retBinary, now, local, rem);
        if status.Fail? {
          return;
        }
      }
      status := CheckTimeouts(config, conns[i], now);
    }

    /**
     * One pass of the recheck loop over connection i: untagged connections
     * are skipped, tagged ones revisited.
     */
    method RecheckOne(i: nat, retBinary: bool, local: Local, now: int, submit: nat -> Remote, ghost target: Sweep)
        returns (status: Status)
      requires i < conns.Length
      requires RecheckFrom(config, retBinary, local, conns[..], i, now, submit) == target
      modifies conns
      ensures status.Fail? ==> conns[..] == target.cs && status == target.status
      ensures status.Pass? ==> RecheckFrom(config, retBinary, local, conns[..], i + 1, now, submit) == target
      ensures conns[..] == old(conns[..])[i := conns[i]]
    {
      RecheckStep(config, retBinary, local, conns[..], i, now, submit);
      status := Pass;
      if conns[i].runOn {
        status := RevisitConn(i, retBinary, local, now, submit(i));
      }
    }

    /**
     * The recheck loop of remote_execute: send the query on connections
     * whose login finished, count the tagged ones not DONE, check timeouts.
     */
    method Recheck(retBinary: bool, local: Local, now: int, submit: nat -> Remote) returns (status: Status, pending: nat)
      modifies conns
      ensures var r := RecheckFrom(config, retBinary, local, old(conns[..]), 0, now, submit);
        conns[..] == r.cs && status == r.status
      ensures status.Pass? ==> pending == Pending(conns[..])
    {
      ghost var target := RecheckFrom(config, retBinary, local, conns[..], 0, now, submit);
      pending := 0;
      var i: nat := 0;
      while i < conns.Length
        invariant i <= conns.Length
        invariant RecheckFrom(config, retBinary, local, conns[..], i, now, submit) == target
        invariant pending == Pending(conns[..i])
      {
        ghost var before := conns[..];
        status := RecheckOne(i, retBinary, local, now, submit, target);
        if status.Fail? {
          return;
        }
        PendingStep(before, i, conns[i]);
        if conns[i].runOn && conns[i].state != CDone {
          pending := pending + 1;
        }
        i := i + 1;
      }
      assert conns[..i] == conns[..];
      status := Pass;
    }

    /** The post-loop review of remote_execute, adding row counts to ret_total. */
    method Review() returns (status: Status)
      modifies this
      ensures var t := ReviewFrom(conns[..], 0, old(retTotal));
        status == t.status && retTotal == t.total
      ensures retCurConn == old(retCurConn)
    {
      var i := 0;
      while i < conns.Length
        invariant 0 <= i <= conns.Length
        invariant retCurConn == old(retCurConn)
        invariant ReviewFrom(conns[..], i, retTotal) == ReviewFrom(conns[..], 0, old(retTotal))
      {
        var c := conns[i];
        if c.runOn != c.res.Some? {
          return Fail(RunOnMismatch);
        }
        if c.runOn {
          if c.state != CDone {
            return Fail(UnfinishedConnection);
          }
          if c.res.None? {
            return Fail(LostResult);
          }
          if c.res.value.status != TuplesOk {
            return Fail(RemoteResultError);
          }
          retTotal := retTotal + |c.res.value.rows|;
        }
        i := i + 1;
      }
      return Pass;
    }

    /** One turn of the wait loop: poll_conns, then the recheck loop. */
    method TakeTurn(retBinary: bool, local: Local, w: Wakeup) returns (status: Status, pending: nat)
      modifies conns
      ensures var t := Turn(config, retBinary, local, old(conns[..]), w);
        conns[..] == t.cs && status == t.status
      ensures status.Pass? ==> pending == Pending(conns[..])
    {
      var inStep;
      status, inStep := PollConns(w.poll, w.io);
      if status.Fail? {
        return status, 0;
      }
      status, pending := Recheck(retBinary, local, w.now, w.submit);
    }

    /**
     * remote_execute: launch, then one turn per wakeup until no tagged
     * connection is pending, then review.
     */
    method RemoteExecute(retBinary: bool, local: Local, now: int, launch: nat -> Remote, rounds: seq<Wakeup>)
      returns (status: Status)
      requires Valid()
      modifies this, conns
      ensures Valid()
      ensures var o := Round.RemoteExecute(config, retBinary, local, old(conns[..]), old(retTotal), now, launch, rounds);
        conns[..] == o.cs && status == o.status && retTotal == o.total
      ensures retCurConn == old(retCurConn)
    {
      ghost var cs := conns[..];
      ghost var o := Round.RemoteExecute(config, retBinary, local, cs, retTotal, now, launch, rounds);
      assert AllOk(o.cs);
      status := Launch(retBinary, local, now, launch);
      if status.Fail? {
        return;
      }
      status := WaitLoop(retBinary, local, rounds);
      if status.Fail? {
        return;
      }
      status := Review();
    }

    /**
     * One pass of the while (pending) loop body, CHECK_FOR_INTERRUPTS first,
     * against the outcome the remaining wakeups lead to.
     */
    method WaitTurn(retBinary: bool, local: Local, rounds: seq<Wakeup>, ghost target: Sweep) returns (status: Status, pending: nat)
      requires Wait(config, retBinary, local, conns[..], rounds) == target
      modifies conns
      ensures status.Fail? ==> target == Sweep(conns[..], status)
      ensures status.Pass? ==> rounds != []
      ensures status.Pass? && pending == 0 ==> target == Sweep(conns[..], Pass)
      ensures status.Pass? && pending != 0 ==> Wait(config, retBinary, local, conns[..], rounds[1..]) == target
    {
      if rounds == [] {
        return Fail(EventsExhausted), 0;
      }
      if rounds[0].interrupted {
        return Fail(Canceled), 0;  // CHECK_FOR_INTERRUPTS
      }
      WaitStep(config, retBinary, local, conns[..], rounds);
      status, pending := TakeTurn(retBinary, local, rounds[0]);
    }

    /**
     * The while (pending) loop of remote_execute: one turn per wakeup
     * until no tagged connection is pending.
     */
    method WaitLoop(retBinary: bool, local: Local, rounds: seq<Wakeup>) returns (status: Status)
      modifies conns
      ensures var w := Wait(config, retBinary, local, old(conns[..]), rounds);
        conns[..] == w.cs && status == w.status
    {
      ghost var target := Wait(config, retBinary, local, conns[..], rounds);
      var rest := rounds;
      var pending: nat := 1;
      while pending != 0
        invariant pending != 0 ==> Wait(config, retBinary, local, conns[..], rest) == target
        invariant pending == 0 ==> target == Sweep(conns[..], Pass)
        decreases |rest|, pending
      {
        status, pending := WaitTurn(retBinary, local, rest, target);
        if status.Fail? {
          return;
        }
        rest := rest[1..];
      }
      return Pass;
    }

    /** remote_cancel: the connections a cancel request is sent to. */
    method RemoteCancel() returns (targets: seq<nat>)
      ensures CancelList(conns[..], targets)
    {
      targets := [];
      var i := 0;
      while i < conns.Length
        invariant 0 <= i <= conns.Length
        invariant forall k :: 0 <= k < |targets| ==> targets[k] < i && CancelTarget(conns[targets[k]])
        invariant forall k, l :: 0 <= k < l < |targets| ==> targets[k] < targets[l]
        invariant forall j :: 0 <= j < i && CancelTarget(conns[j]) ==> j in targets
      {
        var s := conns[i].state;
        if !(s == CNone || s == CReady || s == CDone) {
          targets := targets + [i];
        }
        i := i + 1;
      }
    }

    /**
     * plproxy_exec without the argument marshalling: clean, tag, execute,
     * and on cancellation send cancel requests before giving up.
     */
    method Exec(run: RunType, retSet: bool, retBinary: bool, local: Local, now: int,
                launch: nat -> Remote, rounds: seq<Wakeup>) returns (status: Status, cancelled: seq<nat>)
      requires Valid()
      modifies this, conns
      ensures Valid()
      ensures var o := Call(config, partMap, partCount, partMask, run, retSet, retBinary, local, old(conns[..]), now, launch, rounds);
        conns[..] == o.cs && status == o.status && retTotal == o.total
      ensures retCurConn == 0
      ensures status == Fail(Canceled) ==> CancelList(conns[..], cancelled)
      ensures status != Fail(Canceled) ==> cancelled == []
    {
      cancelled := [];
      CleanResults();
      status := Tag(run, retSet);
      if status.Fail? {
        return;
      }
      status := RemoteExecute(retBinary, local, now, launch, rounds);
      if status == Fail(Canceled) {
        cancelled := RemoteCancel();
      }
    }
  }

  /** No slot tagged: the records are unchanged. */
  lemma MarkedNone(cs: seq<Conn>, partMap: seq<nat>)
    ensures Marked(cs, Image({}, partMap)) == cs
  {
    assert Image({}, partMap) == {};
  }

  /** Tagging one more slot tags its connection. */
  lemma MarkOne(cs: seq<Conn>, done: set<nat>, s: nat, partMap: seq<nat>)
    requires s < |partMap| && partMap[s] < |cs|
    ensures var m := Marked(cs, Image(done, partMap));
      m[partMap[s] := m[partMap[s]].(runOn := true)] == Marked(cs, Image(done + {s}, partMap))
  {
    assert Image(done + {s}, partMap) == Image(done, partMap) + {partMap[s]};
  }
}
