/**
 * Reading back what the shards returned: the columns of a remote result
 * are mapped onto the attributes of the function's return type, the
 * connections are walked in order for the next unread row, and each row
 * becomes one returned value.
 */
module ResultStream {
  import opened ProxyTypes
  import opened ConnMachine
  import opened Round
  import opened Execute

  /** The proxied function's return type and its result_map. */
  class ProxyFunc {
    const ret: RetType
    /** result_map: attribute index to result column index. */
    const resultMap: array<int>

    /** A composite return type has one map entry per attribute. */
    predicate Valid()
      reads this
    {
      ret.RetComposite? ==> resultMap.Length == |ret.attNames|
    }

    constructor (ret: RetType)
      ensures Valid() && this.ret == ret && fresh(resultMap)
    {
      this.ret := ret;
      resultMap := new int[if ret.RetComposite? then |ret.attNames| else 0](_ => -1);
    }
  }

  /** The status of a result: Pass when it is a value. */
  function StatusOf<T>(m: Result<T>): Status
  {
    if m.Ok? then Pass else Fail(m.error)
  }

  // ------------------------------------------------------ column names

  /** PQfname: the name of a column, NULL for an unnamed column or one outside the result. */
  function FieldName(r: PgResult, col: int): Option<string>
  {
    if 0 <= col < |r.names| then r.names[col] else None
  }

  /** Column col is named aname, ignoring case. */
  predicate Named(r: PgResult, col: int, aname: string)
  {
    FieldName(r, col).Some? && CaseEq(aname, FieldName(r, col).value)
  }

  /** Column col has a name, and it is not aname. */
  predicate Other(r: PgResult, col: int, aname: string)
  {
    FieldName(r, col).Some? && !CaseEq(aname, FieldName(r, col).value)
  }

  /** name_matches: an unnamed column is an error, otherwise a case-insensitive comparison. */
  function NameMatches(aname: string, r: PgResult, col: int): (m: Result<bool>)
    ensures m == Ok(true) <==> Named(r, col, aname)
    ensures m == Ok(false) <==> Other(r, col, aname)
    ensures m.Err? ==> m.error == UnnamedColumn(col + 1)
  {
    match FieldName(r, col)
    case None => Err(UnnamedColumn(col + 1))
    case Some(fname) => Ok(CaseEq(aname, fname))
  }

  /**
   * The slow path of map_results from column j on: the first column other
   * than skip named aname. Every column scanned before it must have a name.
   */
  function SearchFrom(aname: string, r: PgResult, skip: int, j: nat): (m: Result<int>)
    ensures m.Ok? ==> j <= m.value < |r.names| && m.value != skip && Named(r, m.value, aname)
    ensures m.Ok? ==> forall k :: j <= k < m.value && k != skip ==> Other(r, k, aname)
    ensures m == Err(FieldMissing(aname)) <==> forall k :: j <= k < |r.names| && k != skip ==> Other(r, k, aname)
    ensures m.Err? && m.error != FieldMissing(aname) ==>
      m.error.UnnamedColumn? && j <= m.error.col - 1 < |r.names| && m.error.col - 1 != skip
      && FieldName(r, m.error.col - 1).None?
      && forall k :: j <= k < m.error.col - 1 && k != skip ==> Other(r, k, aname)
    decreases |r.names| - j
  {
    if j >= |r.names| then Err(FieldMissing(aname))
    else if j == skip then SearchFrom(aname, r, skip, j + 1)
    else
      match NameMatches(aname, r, j)
      case Err(e) => Err(e)
      case Ok(hit) => if hit then Ok(j) else SearchFrom(aname, r, skip, j + 1)
  }

  /**
   * The column attribute i (named aname) reads: column i itself when its
   * name matches, otherwise the first other column with that name.
   */
  function ColumnFor(aname: string, r: PgResult, i: int): Result<int>
  {
    match NameMatches(aname, r, i)
    case Err(e) => Err(e)
    case Ok(hit) => if hit then Ok(i) else SearchFrom(aname, r, i, 0)
  }

  /**
   * A column found is named like the attribute; column i wins when it
   * matches, and otherwise the column found is the first match.
   */
  lemma ColumnForFound(aname: string, r: PgResult, i: int)
    ensures var m := ColumnFor(aname, r, i);
      && (m.Ok? ==> 0 <= m.value < |r.names| && Named(r, m.value, aname))
      && (Named(r, i, aname) ==> m == Ok(i))
      && (m.Ok? && m.value != i ==> Other(r, i, aname) && forall k :: 0 <= k < m.value ==> Other(r, k, aname))
  {
    var m := ColumnFor(aname, r, i);
    if m.Ok? && m.value != i {
      assert Other(r, i, aname);
      assert forall k :: 0 <= k < m.value && k != i ==> Other(r, k, aname);
    }
  }

  /**
   * When every column has a name, the attribute is found exactly when some
   * column carries its name, and otherwise the error names the attribute.
   */
  lemma ColumnForComplete(aname: string, r: PgResult, i: int)
    requires 0 <= i < |r.names|
    requires forall k :: 0 <= k < |r.names| ==> r.names[k].Some?
    ensures ColumnFor(aname, r, i).Ok? <==> exists k :: 0 <= k < |r.names| && Named(r, k, aname)
    ensures ColumnFor(aname, r, i).Err? ==> ColumnFor(aname, r, i) == Err(FieldMissing(aname))
  {
    if !Named(r, i, aname) {
      assert Other(r, i, aname);
      var s := SearchFrom(aname, r, i, 0);
      if s.Err? {
        forall k | 0 <= k < |r.names|
          ensures !Named(r, k, aname)
        {
          if k != i {
            assert Other(r, k, aname);
          }
        }
      }
    }
  }

  /**
   * map_results over the attributes from i on, the columns of the earlier
   * ones being acc: the first attribute whose column cannot be found ends it.
   */
  function MapFrom(atts: seq<string>, r: PgResult, i: nat, acc: seq<int>): (m: Result<seq<int>>)
    requires i <= |atts|
    ensures m.Ok? ==> |m.value| == |acc| + |atts| - i && m.value[..|acc|] == acc
    ensures m.Ok? ==> forall k :: i <= k < |atts| ==> ColumnFor(atts[k], r, k) == Ok(m.value[|acc| + k - i])
    ensures m.Err? <==> exists k :: i <= k < |atts| && ColumnFor(atts[k], r, k).Err?
    ensures m.Err? ==> exists k :: i <= k < |atts| && ColumnFor(atts[k], r, k) == Err(m.error)
    decreases |atts| - i
  {
    if i == |atts| then Ok(acc)
    else
      match ColumnFor(atts[i], r, i)
      case Err(e) => Err(e)
      case Ok(col) => MapFrom(atts, r, i + 1, acc + [col])
  }

  /**
   * map_results: a scalar function needs exactly one column and maps
   * nothing; a composite one needs as many columns as attributes, then
   * maps each attribute to its column.
   */
  function MapSpec(ret: RetType, r: PgResult): Result<seq<int>>
  {
    match ret
    case RetScalar(_, _) => if |r.names| != 1 then Err(ScalarArity) else Ok([])
    case RetComposite(atts, _) =>
      if |r.names| < |atts| then Err(TooFewFields)
      else if |r.names| > |atts| then Err(TooManyFields)
      else MapFrom(atts, r, 0, [])
  }

  /**
   * A successful mapping of a composite type: the result has exactly one
   * column per attribute, every attribute reads an existing column that
   * carries its name, and an attribute whose own column matches reads it.
   */
  lemma MappingSound(atts: seq<string>, binary: bool, r: PgResult)
    requires MapSpec(RetComposite(atts, binary), r).Ok?
    ensures var m := MapSpec(RetComposite(atts, binary), r).value;
      && |r.names| == |atts| && |m| == |atts|
      && (forall k :: 0 <= k < |atts| ==> 0 <= m[k] < |r.names| && Named(r, m[k], atts[k]))
      && (forall k :: 0 <= k < |atts| && Named(r, k, atts[k]) ==> m[k] == k)
  {
    var m := MapSpec(RetComposite(atts, binary), r).value;
    forall k | 0 <= k < |atts|
      ensures 0 <= m[k] < |r.names| && Named(r, m[k], atts[k])
      ensures Named(r, k, atts[k]) ==> m[k] == k
    {
      assert ColumnFor(atts[k], r, k) == Ok(m[k]);
      ColumnForFound(atts[k], r, k);
    }
  }

  /**
   * The mapping errors: a scalar function with a column count other than
   * one, a composite one with too few or too many columns, and otherwise
   * an unnamed column or an attribute no column is named after.
   */
  lemma MappingErrors(ret: RetType, r: PgResult)
    ensures ret.RetScalar? ==> (MapSpec(ret, r).Err? <==> |r.names| != 1)
    ensures ret.RetScalar? && MapSpec(ret, r).Err? ==> MapSpec(ret, r).error == ScalarArity
    ensures ret.RetComposite? && |r.names| < |ret.attNames| ==> MapSpec(ret, r) == Err(TooFewFields)
    ensures ret.RetComposite? && |r.names| > |ret.attNames| ==> MapSpec(ret, r) == Err(TooManyFields)
    ensures ret.RetComposite? && |r.names| == |ret.attNames| && MapSpec(ret, r).Err? ==>
      MapSpec(ret, r).error.UnnamedColumn? || MapSpec(ret, r).error.FieldMissing?
  {
    if ret.RetComposite? && |r.names| == |ret.attNames| && MapSpec(ret, r).Err? {
      var atts := ret.attNames;
      var k :| 0 <= k < |atts| && ColumnFor(atts[k], r, k) == Err(MapSpec(ret, r).error);
      var s := SearchFrom(atts[k], r, k, 0);
    }
  }

  /**
   * When every column is named and every attribute has a column of its
   * name, a composite mapping succeeds.
   */
  lemma MappingComplete(atts: seq<string>, binary: bool, r: PgResult)
    requires |r.names| == |atts|
    requires forall k :: 0 <= k < |r.names| ==> r.names[k].Some?
    requires forall a :: a in atts ==> exists k :: 0 <= k < |r.names| && Named(r, k, a)
    ensures MapSpec(RetComposite(atts, binary), r).Ok?
  {
    forall k | 0 <= k < |atts|
      ensures ColumnFor(atts[k], r, k).Ok?
    {
      assert atts[k] in atts;
      ColumnForComplete(atts[k], r, k);
    }
  }

  /**
   * The mapping need not be one to one: with columns "a" and "b", the
   * attributes "a" and "A" both read column 0 and column 1 is never read.
   */
  lemma MappingNotInjective()
    ensures MapSpec(RetComposite(["a", "A"], false), PgResult(TuplesOk, [Some("a"), Some("b")], [0, 0], []))
         == Ok([0, 0])
  {
    var r := PgResult(TuplesOk, [Some("a"), Some("b")], [0, 0], []);
    assert CaseEq("a", "a");
    assert !CaseEq("A", "b") by { assert Lower("A"[0]) != Lower("b"[0]); }
    assert CaseEq("A", "a") by { assert Lower("A"[0]) == Lower("a"[0]); }
    assert ColumnFor("a", r, 0) == Ok(0);
    assert NameMatches("A", r, 1) == Ok(false);
    assert NameMatches("A", r, 0) == Ok(true);
    assert SearchFrom("A", r, 1, 0) == Ok(0);
    assert ColumnFor("A", r, 1) == Ok(0);
    var atts := ["a", "A"];
    assert MapFrom(atts, r, 2, [0, 0]) == Ok([0, 0]);
    assert [0] + [0] == [0, 0] && [] + [0] == [0];
    assert MapFrom(atts, r, 1, [0]) == Ok([0, 0]);
    assert MapFrom(atts, r, 0, []) == Ok([0, 0]);
    assert MapSpec(RetComposite(atts, false), r) == MapFrom(atts, r, 0, []);
  }

  /** The slow path of map_results: every column but skip, in order, until one carries the name. */
  method SearchColumn(aname: string, r: PgResult, skip: int) returns (m: Result<int>)
    ensures m == SearchFrom(aname, r, skip, 0)
  {
    var j := 0;
    while j < |r.names|
      invariant 0 <= j <= |r.names|
      invariant SearchFrom(aname, r, skip, j) == SearchFrom(aname, r, skip, 0)
    {
      if j != skip {
        var hit := NameMatches(aname, r, j);
        if hit.Err? {
          return Err(hit.error);
        }
        if hit.value {
          return Ok(j);
        }
      }
      j := j + 1;
    }
    m := Err(FieldMissing(aname));
  }

  /** map_results: fills func.result_map as MapSpec says, or fails with its error. */
  method MapResults(f: ProxyFunc, r: PgResult) returns (status: Status)
    requires f.Valid()
    modifies f.resultMap
    ensures status == StatusOf(MapSpec(f.ret, r))
    ensures status.Pass? && f.ret.RetComposite? ==> f.resultMap[..] == MapSpec(f.ret, r).value
    ensures f.ret.RetScalar? ==> unchanged(f.resultMap)
  {
    match f.ret
    case RetScalar(_, _) =>
      status := if |r.names| != 1 then Fail(ScalarArity) else Pass;
    case RetComposite(atts, _) =>
      var natts, nfields := |atts|, |r.names|;
      if nfields < natts {
        return Fail(TooFewFields);
      }
      if nfields > natts {
        return Fail(TooManyFields);
      }
      var i := 0;
      while i < natts
        invariant 0 <= i <= natts
        invariant MapFrom(atts, r, i, f.resultMap[..i]) == MapFrom(atts, r, 0, [])
      {
        var col := -1;
        match NameMatches(atts[i], r, i) {
          case Err(e) =>
            return Fail(e);
          case Ok(hit) =>
            if hit {
              // the column in the attribute's own position
              col := i;
            } else {
              var m := SearchColumn(atts[i], r, i);
              if m.Err? {
                return Fail(m.error);
              }
              col := m.value;
            }
        }
        assert ColumnFor(atts[i], r, i) == Ok(col);
        f.resultMap[i] := col;
        assert f.resultMap[..i + 1] == f.resultMap[..i] + [col];
        i := i + 1;
      }
      assert f.resultMap[..] == f.resultMap[..natts];
      status := Pass;
  }

  // -------------------------------------------------------- the stream

  /** The first connection from i on with unread rows, or the end of the list. */
  function NextFrom(cs: seq<Conn>, i: nat): (k: nat)
    requires i <= |cs|
    ensures i <= k <= |cs|
    ensures forall j :: i <= j < k ==> Exhausted(cs[j])
    ensures k < |cs| ==> !Exhausted(cs[k])
    decreases |cs| - i
  {
    if i == |cs| || !Exhausted(cs[i]) then i else NextFrom(cs, i + 1)
  }

  /** Rows of cs[i..] not handed out yet. */
  function Unread(cs: seq<Conn>, i: nat): int
    requires i <= |cs|
    decreases |cs| - i
  {
    if i == |cs| then 0
    else (if cs[i].res.Some? then |cs[i].res.value.rows| - cs[i].pos else 0) + Unread(cs, i + 1)
  }

  /**
   * The stream's invariant: connections behind the cursor are exhausted,
   * those past it have handed out nothing yet, ret_total counts the unread
   * rows, and once the cursor's connection has handed out a row a
   * composite result map is that connection's column mapping.
   */
  predicate StreamInv(ret: RetType, rmap: seq<int>, cs: seq<Conn>, cur: int, total: int)
  {
    && 0 <= cur <= |cs|
    && AllOk(cs)
    && (forall j :: 0 <= j < cur ==> Exhausted(cs[j]))
    && (forall j :: cur < j < |cs| ==> cs[j].pos == 0)
    && total == Unread(cs, 0)
    && (ret.RetComposite? && cur < |cs| && cs[cur].pos > 0 ==>
          cs[cur].res.Some? && MapSpec(ret, cs[cur].res.value) == Ok(rmap))
  }

  lemma {:induction false} UnreadNonNegative(cs: seq<Conn>, i: nat)
    requires i <= |cs| && AllOk(cs)
    ensures Unread(cs, i) >= 0
    ensures Unread(cs, i) == 0 <==> forall j :: i <= j < |cs| ==> Exhausted(cs[j])
    decreases |cs| - i
  {
    if i < |cs| {
      UnreadNonNegative(cs, i + 1);
    }
  }

  lemma {:induction false} UnreadUpdate(cs: seq<Conn>, i: nat, k: nat, c: Conn)
    requires i <= k < |cs| && cs[k].res.Some? && c.res == cs[k].res
    ensures Unread(cs[k := c], i) == Unread(cs, i) - (c.pos - cs[k].pos)
    decreases |cs| - i
  {
    if i < k {
      UnreadUpdate(cs, i + 1, k, c);
    } else {
      UnreadSame(cs, cs[k := c], k + 1);
    }
  }

  lemma {:induction false} UnreadSame(cs: seq<Conn>, ds: seq<Conn>, i: nat)
    requires i <= |cs| == |ds| && cs[i..] == ds[i..]
    ensures Unread(cs, i) == Unread(ds, i)
    decreases |cs| - i
  {
    if i < |cs| {
      assert cs[i] == cs[i..][0] && ds[i] == ds[i..][0];
      assert cs[i + 1..] == cs[i..][1..] && ds[i + 1..] == ds[i..][1..];
      UnreadSame(cs, ds, i + 1);
    }
  }

  /**
   * Rows remain exactly while ret_total is positive, and then the walk
   * finds a connection: the "no result" error cannot happen.
   */
  lemma WalkFindsRow(ret: RetType, rmap: seq<int>, cs: seq<Conn>, cur: int, total: int)
    requires StreamInv(ret, rmap, cs, cur, total)
    ensures total >= 0
    ensures total > 0 <==> NextFrom(cs, cur) < |cs|
  {
    UnreadNonNegative(cs, 0);
    var k := NextFrom(cs, cur);
    if k < |cs| {
      assert !Exhausted(cs[k]);
    } else {
      assert forall j :: 0 <= j < |cs| ==> Exhausted(cs[j]) by {
        forall j | 0 <= j < |cs| ensures Exhausted(cs[j]) {
          if j >= cur { assert cur <= j < k; }
        }
      }
    }
  }

  /**
   * Handing out one row keeps the invariant: the cursor moves to the
   * connection found, its position grows by one and ret_total drops by one.
   * The map rmap2 in force afterwards is the one walk_results leaves: built
   * afresh on a connection's first row, otherwise the map already in force.
   * Either way a composite row is read through that connection's mapping.
   */
  lemma StreamStep(ret: RetType, rmap: seq<int>, rmap2: seq<int>, cs: seq<Conn>, cur: int, total: int)
    requires StreamInv(ret, rmap, cs, cur, total)
    requires NextFrom(cs, cur) < |cs|
    requires var c := cs[NextFrom(cs, cur)];
      && (c.pos == 0 && ret.RetComposite? ==> c.res.Some? && MapSpec(ret, c.res.value) == Ok(rmap2))
      && (c.pos != 0 || ret.RetScalar? ==> rmap2 == rmap)
    ensures var k := NextFrom(cs, cur);
      && cs[k].res.Some?
      && (ret.RetComposite? ==> MapSpec(ret, cs[k].res.value) == Ok(rmap2))
      && StreamInv(ret, rmap2, cs[k := cs[k].(pos := cs[k].pos + 1)], k, total - 1)
  {
    var k := NextFrom(cs, cur);
    if k != cur {
      assert cur < k && cs[k].pos == 0;
    }
    var c := cs[k].(pos := cs[k].pos + 1);
    UnreadUpdate(cs, 0, k, c);
    var ds := cs[k := c];
    assert forall j :: 0 <= j < k ==> Exhausted(ds[j]) by {
      forall j | 0 <= j < k ensures Exhausted(ds[j]) {
        if j >= cur { assert cur <= j < k; }
      }
    }
  }

  /**
   * After a successful remote_execute on cleaned records, ret_total is
   * the stream invariant's count with the cursor at the start.
   */
  lemma StreamStart(ret: RetType, rmap: seq<int>, cs: seq<Conn>)
    requires AllOk(cs)
    requires forall j :: 0 <= j < |cs| ==> Finished(cs[j]) && cs[j].pos == 0
    ensures StreamInv(ret, rmap, cs, 0, RowsFrom(cs, 0))
  {
    StartFrom(cs, 0);
  }

  lemma {:induction false} StartFrom(cs: seq<Conn>, i: nat)
    requires i <= |cs|
    requires forall j :: i <= j < |cs| ==> Finished(cs[j]) && cs[j].pos == 0
    ensures RowsFrom(cs, i) == Unread(cs, i)
    decreases |cs| - i
  {
    if i < |cs| {
      StartFrom(cs, i + 1);
    }
  }

  /** walk_results: advance ret_cur_conn to the next connection with unread rows, mapping its columns on first use. */
  method WalkResults(f: ProxyFunc, cl: Cluster) returns (status: Status)
    requires f.Valid() && cl.Valid()
    modifies cl, f.resultMap
    ensures cl.Valid()
    ensures cl.retCurConn == NextFrom(cl.conns[..], old(cl.retCurConn))
    ensures cl.retTotal == old(cl.retTotal)
    ensures var k := cl.retCurConn;
      status == if k == cl.conns.Length then Fail(NoResult)
                else if cl.conns[k].pos == 0 then StatusOf(MapSpec(f.ret, cl.conns[k].res.value))
                else Pass
    ensures var k := cl.retCurConn;
      k < cl.conns.Length && cl.conns[k].pos == 0 && status.Pass? && f.ret.RetComposite? ==>
        f.resultMap[..] == MapSpec(f.ret, cl.conns[k].res.value).value
    ensures var k := cl.retCurConn;
      k == cl.conns.Length || cl.conns[k].pos != 0 || f.ret.RetScalar? ==> unchanged(f.resultMap)
  {
    while cl.retCurConn < cl.conns.Length
      invariant old(cl.retCurConn) <= cl.retCurConn <= cl.conns.Length
      invariant NextFrom(cl.conns[..], cl.retCurConn) == NextFrom(cl.conns[..], old(cl.retCurConn))
      invariant cl.retTotal == old(cl.retTotal) && cl.Valid()
      invariant unchanged(f.resultMap)
      decreases cl.conns.Length - cl.retCurConn
    {
      var c := cl.conns[cl.retCurConn];
      if c.res.None? || c.pos == |c.res.value.rows| {
        cl.retCurConn := cl.retCurConn + 1;
        continue;
      }
      // first time on this connection
      if c.pos == 0 {
        status := MapResults(f, c.res.value);
        return;
      }
      return Pass;
    }
    status := Fail(NoResult);
  }

  // ------------------------------------------------------------ values

  /** One output column handed to the type input routine: value, length, format. */
  datatype Slot = Slot(value: Option<string>, length: int, format: int)

  /** A returned value: a void datum, a NULL, a scalar, or a row of the composite type. */
  datatype Datum = VoidDatum | NullDatum | Value(slot: Slot) | Tuple(slots: seq<Slot>)

  /** The slot a cell fills: a NULL cell gives no value, length 0 and format 0. */
  function SlotOf(cell: Cell, format: int): Slot
  {
    match cell
    case NullCell => Slot(None, 0, 0)
    case Text(d) => Slot(Some(d), |d|, format)
  }

  /** The cell a slot was read from. */
  function CellOf(s: Slot): Cell
  {
    if s.value.None? then NullCell else Text(s.value.value)
  }

  /** A slot gives back its cell, and its length is that of the text. */
  lemma SlotRoundTrip(cell: Cell, format: int)
    ensures CellOf(SlotOf(cell, format)) == cell
    ensures SlotOf(cell, format).value.None? ==> SlotOf(cell, format) == Slot(None, 0, 0)
    ensures cell.Text? ==> SlotOf(cell, format).length == |cell.data| && SlotOf(cell, format).format == format
  {
  }

  /** The slot attribute i of a row reads: column map[i] of that row. */
  function MappedSlot(r: PgResult, row: int, col: int): Slot
  {
    SlotOf(CellAt(r, row, col), FormatOf(r, col))
  }

  /** return_composite: one slot per attribute, read through result_map. */
  method ReturnComposite(f: ProxyFunc, c: Conn) returns (d: Datum)
    requires f.Valid() && f.ret.RetComposite? && c.res.Some?
    ensures d.Tuple? && |d.slots| == |f.ret.attNames|
    ensures forall i :: 0 <= i < |d.slots| ==> d.slots[i] == MappedSlot(c.res.value, c.pos, f.resultMap[i])
  {
    var slots: seq<Slot> := [];
    var natts := |f.ret.attNames|;
    for i := 0 to natts
      invariant |slots| == i
      invariant forall k :: 0 <= k < i ==> slots[k] == MappedSlot(c.res.value, c.pos, f.resultMap[k])
    {
      var col := f.resultMap[i];
      var cell := CellAt(c.res.value, c.pos, col);
      if cell.NullCell? {
        slots := slots + [Slot(None, 0, 0)];
      } else {
        slots := slots + [Slot(Some(cell.data), |cell.data|, FormatOf(c.res.value, col))];
      }
    }
    d := Tuple(slots);
  }

  /**
   * return_scalar: a void function returns a null datum that is not NULL,
   * a NULL first cell gives NULL, any other gives the cell's value.
   */
  function ReturnScalar(isVoid: bool, r: PgResult, row: int): (d: Datum)
    ensures isVoid <==> d == VoidDatum
    ensures d == NullDatum <==> !isVoid && CellAt(r, row, 0).NullCell?
    ensures d.Value? <==> !isVoid && CellAt(r, row, 0).Text?
    ensures d.Value? ==> CellOf(d.slot) == CellAt(r, row, 0) && d.slot.format == FormatOf(r, 0)
  {
    if isVoid then VoidDatum
    else if CellAt(r, row, 0).NullCell? then NullDatum
    else Value(SlotOf(CellAt(r, row, 0), FormatOf(r, 0)))
  }

  /** The value of the row at position row of r under the return type and result_map. */
  function RowValue(ret: RetType, r: PgResult, row: int, rmap: seq<int>): Datum
  {
    match ret
    case RetScalar(isVoid, _) => ReturnScalar(isVoid, r, row)
    case RetComposite(atts, _) =>
      Tuple(seq(|atts|, i requires 0 <= i < |atts| => MappedSlot(r, row, if i < |rmap| then rmap[i] else -1)))
  }

  /** The current row of c as the function's return value, scalar or composite. */
  method ReturnRow(f: ProxyFunc, c: Conn) returns (d: Datum)
    requires f.Valid() && c.res.Some?
    ensures d == RowValue(f.ret, c.res.value, c.pos, f.resultMap[..])
  {
    if f.ret.RetComposite? {
      d := ReturnComposite(f, c);
      assert d == RowValue(f.ret, c.res.value, c.pos, f.resultMap[..]);
    } else {
      d := ReturnScalar(f.ret.isVoid, c.res.value, c.pos);
    }
  }

  /**
   * plproxy_result: find the next unread row, build its value, then count
   * it off: ret_total drops by one and only that connection's position
   * moves, by one. A connection's first row maps its columns afresh; later
   * rows leave the map alone. The stream invariant is kept, and under it a
   * composite row is read through its own connection's mapping.
   */
  method NextResult(f: ProxyFunc, cl: Cluster) returns (status: Status, d: Datum)
    requires f.Valid() && cl.Valid()
    modifies cl, cl.conns, f.resultMap
    ensures cl.Valid()
    ensures cl.retCurConn == NextFrom(old(cl.conns[..]), old(cl.retCurConn))
    ensures status.Fail? ==> cl.conns[..] == old(cl.conns[..]) && cl.retTotal == old(cl.retTotal)
    ensures status.Fail? ==>
      status.error == NoResult || (cl.retCurConn < cl.conns.Length && cl.conns[cl.retCurConn].pos == 0)
    ensures status.Pass? ==> cl.retCurConn < cl.conns.Length
    ensures status.Pass? && cl.retCurConn < cl.conns.Length ==>
      var k := cl.retCurConn;
      var c := old(cl.conns[k]);
      && c.res.Some? && 0 <= c.pos < |c.res.value.rows|
      && cl.conns[..] == old(cl.conns[..])[k := c.(pos := c.pos + 1)]
      && cl.retTotal == old(cl.retTotal) - 1
      && d == RowValue(f.ret, c.res.value, c.pos, f.resultMap[..])
    ensures status.Pass? && cl.retCurConn < cl.conns.Length ==>
      var k := cl.retCurConn;
      var c := old(cl.conns[k]);
      && (c.pos == 0 && f.ret.RetComposite? ==> c.res.Some? && MapSpec(f.ret, c.res.value) == Ok(f.resultMap[..]))
      && (c.pos != 0 || f.ret.RetScalar? ==> unchanged(f.resultMap))
    ensures status.Pass? && StreamInv(f.ret, old(f.resultMap[..]), old(cl.conns[..]), old(cl.retCurConn), old(cl.retTotal)) ==>
      && StreamInv(f.ret, f.resultMap[..], cl.conns[..], cl.retCurConn, cl.retTotal)
      && cl.retCurConn < cl.conns.Length
      && (f.ret.RetComposite? ==>
            var k := cl.retCurConn;
            var c := old(cl.conns[k]);
            c.res.Some? && MapSpec(f.ret, c.res.value) == Ok(f.resultMap[..]))
  {
    ghost var rmap := f.resultMap[..];
    ghost var cs := cl.conns[..];
    status := WalkResults(f, cl);
    d := NullDatum;
    if status.Fail? {
      return;
    }
    var k := cl.retCurConn;
    var c := cl.conns[k];
    assert c.pos == 0 && f.ret.RetComposite? ==> MapSpec(f.ret, c.res.value) == Ok(f.resultMap[..]);
    d := ReturnRow(f, c);
    cl.retTotal := cl.retTotal - 1;
    cl.conns[k] := c.(pos := c.pos + 1);
    assert cl.conns[..] == cs[k := c.(pos := c.pos + 1)];
    assert ConnOk(cl.conns[k]);
    if StreamInv(f.ret, rmap, cs, old(cl.retCurConn), old(cl.retTotal)) {
      StreamStep(f.ret, rmap, f.resultMap[..], cs, old(cl.retCurConn), old(cl.retTotal));
    }
  }
}
