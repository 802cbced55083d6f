/**
 * Building the SQL text sent to the shards. Identifiers of the user's
 * query that name a function argument (by name, or as $n) become
 * positional parameter references $k, optionally with a ::type cast; every
 * argument gets one parameter slot however often it is referenced, and
 * arg_lookup records which argument each slot carries.
 */
module Query {
  import opened ProxyTypes

  // ------------------------------------------------------------ numbers

  predicate IsDigit(c: char)
  {
    '0' <= c <= '9'
  }

  function DigitChar(d: nat): char
    requires d < 10
  {
    ('0' as int + d) as char
  }

  function DigitValue(c: char): nat
    requires IsDigit(c)
  {
    c as int - '0' as int
  }

  /** sprintf("%d") of a non-negative number. */
  function Digits(n: nat): (s: string)
    ensures |s| >= 1 && IsDigit(s[0])
    ensures forall k :: 0 <= k < |s| ==> IsDigit(s[k])
  {
    if n < 10 then [DigitChar(n)] else Digits(n / 10) + [DigitChar(n % 10)]
  }

  /** The number a run of digits spells. */
  function Value(s: string): nat
    requires forall k :: 0 <= k < |s| ==> IsDigit(s[k])
  {
    if s == [] then 0 else Value(s[..|s| - 1]) * 10 + DigitValue(s[|s| - 1])
  }

  /** The longest prefix of s made of digits. */
  function LeadingDigits(s: string): (d: string)
    ensures d <= s
    ensures forall k :: 0 <= k < |d| ==> IsDigit(d[k])
    ensures |d| < |s| ==> !IsDigit(s[|d|])
  {
    if s == [] || !IsDigit(s[0]) then [] else [s[0]] + LeadingDigits(s[1..])
  }

  /** isspace in the C locale. */
  predicate IsSpace(c: char)
  {
    c == ' ' || c == '\t' || c == '\n' || c as int == 11 || c as int == 12 || c == '\r'
  }

  function SkipSpace(s: string): (t: string)
    ensures |t| <= |s| && t == s[|s| - |t|..]
    ensures t != [] ==> !IsSpace(t[0])
  {
    if s != [] && IsSpace(s[0]) then SkipSpace(s[1..]) else s
  }

  /**
   * atoi: leading white space, an optional sign, then the longest run of
   * digits; text without digits reads as 0.
   */
  function Atoi(s: string): int
  {
    var t := SkipSpace(s);
    if t != [] && t[0] == '-' then -(Value(LeadingDigits(t[1..])) as int)
    else if t != [] && t[0] == '+' then Value(LeadingDigits(t[1..]))
    else Value(LeadingDigits(t))
  }

  lemma {:induction false} ValueOfDigits(n: nat)
    ensures Value(Digits(n)) == n
  {
    if n >= 10 {
      var s := Digits(n);
      ValueOfDigits(n / 10);
      assert s[..|s| - 1] == Digits(n / 10);
    }
  }

  lemma {:induction false} LeadingDigitsOver(d: string, rest: string)
    requires forall k :: 0 <= k < |d| ==> IsDigit(d[k])
    requires rest == [] || !IsDigit(rest[0])
    ensures LeadingDigits(d + rest) == d
    decreases |d|
  {
    if d == [] {
      assert d + rest == rest;
    } else {
      assert (d + rest)[1..] == d[1..] + rest;
      LeadingDigitsOver(d[1..], rest);
    }
  }

  /** Text starting with a digit is read without skipping or sign. */
  lemma AtoiUnsigned(s: string)
    requires s != [] && IsDigit(s[0])
    ensures Atoi(s) == Value(LeadingDigits(s))
  {
    assert !IsSpace(s[0]) && s[0] != '-' && s[0] != '+';
    assert SkipSpace(s) == s;
  }

  /** atoi reads back what sprintf("%d") wrote, up to a non-digit. */
  lemma {:induction false} AtoiOfDigits(n: nat, rest: string)
    requires rest == [] || !IsDigit(rest[0])
    ensures Atoi(Digits(n) + rest) == n
  {
    var d := Digits(n);
    assert (d + rest)[0] == d[0];
    AtoiUnsigned(d + rest);
    LeadingDigitsOver(d, rest);
    ValueOfDigits(n);
  }

  // ------------------------------------------------------- references

  /** add_ref: "$" and the 1-based slot number, with "::type" when types are added. */
  function Ref(sqlIdx: nat, typeName: string, addType: bool): string
  {
    "$" + Digits(sqlIdx + 1) + (if addType then "::" + typeName else "")
  }

  /** The first argument from i on whose name is ident, ignoring case. */
  function FindFrom(ident: string, names: seq<string>, i: nat): (r: Option<nat>)
    ensures r.Some? ==> i <= r.value < |names| && CaseEq(ident, names[r.value])
    ensures r.Some? ==> forall k :: i <= k < r.value ==> !CaseEq(ident, names[k])
    ensures r.None? ==> forall k :: i <= k < |names| ==> !CaseEq(ident, names[k])
    decreases |names| - i
  {
    if i >= |names| then None
    else if CaseEq(ident, names[i]) then Some(i)
    else FindFrom(ident, names, i + 1)
  }

  /** What an identifier stands for: a parameter, a malformed reference, or itself. */
  datatype Resolved = Invalid | Param(fnIdx: nat) | Verbatim

  /**
   * "$n" names argument n-1, and is invalid unless n is between 1 and the
   * argument count; any other identifier names the first argument called
   * like it, or stands for itself.
   */
  function ResolveIdent(ident: string, names: seq<string>): (r: Resolved)
    ensures r.Param? ==> r.fnIdx < |names|
    ensures r == Verbatim ==> (ident == [] || ident[0] != '$')
  {
    if ident != [] && ident[0] == '$' then
      var n := Atoi(ident[1..]) - 1;
      if 0 <= n < |names| then Param(n) else Invalid
    else
      match FindFrom(ident, names, 0)
      case None => Verbatim
      case Some(i) => Param(i)
  }

  /**
   * The identifier rules: a "$n" outside 1..arg_count (non-numeric text
   * reads as 0) is invalid; a bare name resolves to the first argument
   * with that name, and to itself when there is none.
   */
  lemma ResolveRules(ident: string, names: seq<string>)
    ensures ident != [] && ident[0] == '$' ==>
      (ResolveIdent(ident, names) == Invalid <==> !(1 <= Atoi(ident[1..]) <= |names|))
    ensures ident != [] && ident[0] == '$' && ResolveIdent(ident, names).Param? ==>
      ResolveIdent(ident, names).fnIdx == Atoi(ident[1..]) - 1
    ensures (ident == [] || ident[0] != '$') ==>
      && ResolveIdent(ident, names) != Invalid
      && (ResolveIdent(ident, names) == Verbatim <==> forall k :: 0 <= k < |names| ==> !CaseEq(ident, names[k]))
      && (ResolveIdent(ident, names).Param? ==>
            var i := ResolveIdent(ident, names).fnIdx;
            CaseEq(ident, names[i]) && forall k :: 0 <= k < i ==> !CaseEq(ident, names[k]))
  {
  }

  /** A reference add_ref wrote resolves back to its slot when read as an identifier. */
  lemma RefResolves(sqlIdx: nat, typeName: string, addType: bool, names: seq<string>)
    requires sqlIdx < |names|
    ensures ResolveIdent(Ref(sqlIdx, typeName, addType), names) == Param(sqlIdx)
  {
    var suffix := if addType then "::" + typeName else "";
    var r := Ref(sqlIdx, typeName, addType);
    assert r == "$" + (Digits(sqlIdx + 1) + suffix);
    assert r[1..] == Digits(sqlIdx + 1) + suffix;
    AtoiOfDigits(sqlIdx + 1, suffix);
  }

  // -------------------------------------------------- parameter slots

  /** arg_lookup's invariant: argument indexes below n, no argument twice. */
  predicate LookupOk(lookup: seq<int>, n: nat)
  {
    && (forall k :: 0 <= k < |lookup| ==> 0 <= lookup[k] < n)
    && (forall k, l :: 0 <= k < l < |lookup| ==> lookup[k] != lookup[l])
  }

  /** The first slot from i on that carries argument fnIdx, or |lookup| when none does. */
  function Position(lookup: seq<int>, fnIdx: int, i: nat): (p: nat)
    requires i <= |lookup|
    ensures i <= p <= |lookup|
    ensures p < |lookup| ==> lookup[p] == fnIdx
    ensures forall k :: i <= k < p ==> lookup[k] != fnIdx
    decreases |lookup| - i
  {
    if i == |lookup| || lookup[i] == fnIdx then i else Position(lookup, fnIdx, i + 1)
  }

  /** New slot table and the slot an argument reference uses. */
  datatype Binding = Binding(lookup: seq<int>, slot: nat)

  /** An argument already in a slot reuses it; otherwise it takes a new slot at the end. */
  function Bind(lookup: seq<int>, fnIdx: nat): Binding
  {
    var p := Position(lookup, fnIdx, 0);
    if p < |lookup| then Binding(lookup, p) else Binding(lookup + [fnIdx], |lookup|)
  }

  /**
   * Binding an argument: its slot carries it, earlier slots are kept, an
   * argument seen before keeps its first slot, and the table grows by at
   * most one.
   */
  lemma BindSlot(lookup: seq<int>, fnIdx: nat)
    ensures var b := Bind(lookup, fnIdx);
      && b.slot < |b.lookup| && b.lookup[b.slot] == fnIdx
      && lookup <= b.lookup && |b.lookup| <= |lookup| + 1
      && (fnIdx in lookup <==> b.lookup == lookup)
      && (forall k :: 0 <= k < b.slot ==> lookup[k] != fnIdx)
  {
    var p := Position(lookup, fnIdx, 0);
    if fnIdx in lookup {
      var k :| 0 <= k < |lookup| && lookup[k] == fnIdx;
      assert p <= k;
    }
  }

  lemma {:induction false} SubsetOfRange(s: set<int>, n: nat)
    requires forall x :: x in s ==> 0 <= x < n
    ensures |s| <= n
  {
    if n > 0 {
      var s' := s - {n - 1};
      SubsetOfRange(s', n - 1);
    } else {
      assert forall x :: x !in s;
      assert s == {};
    }
  }

  function Elems(xs: seq<int>): set<int>
  {
    set x | x in xs
  }

  lemma {:induction false} DistinctElements(xs: seq<int>)
    requires forall k, l :: 0 <= k < l < |xs| ==> xs[k] != xs[l]
    ensures |Elems(xs)| == |xs|
  {
    if xs != [] {
      var ys := xs[..|xs| - 1];
      DistinctElements(ys);
      var last := xs[|xs| - 1];
      assert Elems(xs) == Elems(ys) + {last};
      assert last !in ys;
    }
  }

  /** Distinct argument indexes below n: at most n of them, the allocated capacity. */
  lemma LookupFits(lookup: seq<int>, n: nat)
    requires LookupOk(lookup, n)
    ensures |lookup| <= n
  {
    DistinctElements(lookup);
    SubsetOfRange(Elems(lookup), n);
  }

  /** Binding keeps the invariant, so arg_count never exceeds the argument count. */
  lemma BindKeepsLookupOk(lookup: seq<int>, fnIdx: nat, n: nat)
    requires LookupOk(lookup, n) && fnIdx < n
    ensures LookupOk(Bind(lookup, fnIdx).lookup, n)
    ensures |Bind(lookup, fnIdx).lookup| <= n
  {
    BindSlot(lookup, fnIdx);
    var b := Bind(lookup, fnIdx);
    if b.lookup != lookup {
      assert fnIdx !in lookup;
      assert b.lookup == lookup + [fnIdx];
    }
    LookupFits(b.lookup, n);
  }

  // ---------------------------------------------------------- the buffer

  /** The text generated so far and the slot table. */
  datatype Buf = Buf(sql: string, lookup: seq<int>)

  /** The outcome of adding an identifier. */
  datatype Added = Added(ok: bool, buf: Buf)

  /**
   * plproxy_query_add_ident on the buffer's value: an invalid "$n" is
   * refused and nothing is added; a parameter is bound to its slot and
   * referenced; anything else is copied.
   */
  function AddIdentSpec(names: seq<string>, types: seq<string>, addTypes: bool, b: Buf, ident: string): Added
    requires |types| == |names|
  {
    match ResolveIdent(ident, names)
    case Invalid => Added(false, b)
    case Verbatim => Added(true, b.(sql := b.sql + ident))
    case Param(fnIdx) =>
      var bd := Bind(b.lookup, fnIdx);
      Added(true, Buf(b.sql + Ref(bd.slot, types[fnIdx], addTypes), bd.lookup))
  }

  /** Adding an identifier keeps the slot table's invariant and extends the text. */
  lemma AddIdentKeepsLookup(names: seq<string>, types: seq<string>, addTypes: bool, b: Buf, ident: string)
    requires |types| == |names| && LookupOk(b.lookup, |names|)
    ensures var a := AddIdentSpec(names, types, addTypes, b, ident);
      && LookupOk(a.buf.lookup, |names|) && |a.buf.lookup| <= |names|
      && b.sql <= a.buf.sql && b.lookup <= a.buf.lookup && |a.buf.lookup| <= |b.lookup| + 1
      && (!a.ok ==> a.buf == b)
  {
    LookupFits(b.lookup, |names|);
    match ResolveIdent(ident, names)
    case Invalid =>
    case Verbatim =>
    case Param(fnIdx) =>
      BindSlot(b.lookup, fnIdx);
      BindKeepsLookupOk(b.lookup, fnIdx, |names|);
  }

  /** The generated query handed on: its text, slot count and slot table. */
  datatype ProxyQuery = ProxyQuery(sql: string, argCount: nat, argLookup: seq<int>)

  /** QueryBuffer: the text being generated and the slot table of the function's arguments. */
  class QueryBuffer {
    /** The proxied function's argument names and type names. */
    const names: seq<string>
    const types: seq<string>
    const addTypes: bool
    var sql: string
    var argCount: nat
    /** arg_lookup: slot to argument index; room for one slot per argument. */
    const argLookup: array<int>

    predicate Valid()
      reads this, argLookup
    {
      && |types| == |names|
      && argLookup.Length == |names|
      && argCount <= argLookup.Length
      && LookupOk(argLookup[..argCount], |names|)
    }

    /** The slots in use. */
    function Lookup(): seq<int>
      reads this, argLookup
      requires argCount <= argLookup.Length
    {
      argLookup[..argCount]
    }

    /** plproxy_query_start: empty text, no slot used, room for every argument. */
    constructor (names: seq<string>, types: seq<string>, addTypes: bool)
      requires |types| == |names|
      ensures Valid()
      ensures this.names == names && this.types == types && this.addTypes == addTypes
      ensures sql == [] && argCount == 0
    {
      this.names := names;
      this.types := types;
      this.addTypes := addTypes;
      sql := [];
      argCount := 0;
      argLookup := new int[|names|];
    }

    /** plproxy_query_add_const: the fragment is appended as it is. */
    method AddConst(data: string) returns (ok: bool)
      requires Valid()
      modifies this
      ensures Valid() && ok
      ensures sql == old(sql) + data && argCount == old(argCount)
    {
      sql := sql + data;
      ok := true;
    }

    /** plproxy_query_add_ident */
    method AddIdent(ident: string) returns (ok: bool)
      requires Valid()
      modifies this, argLookup
      ensures Valid()
      ensures Added(ok, Buf(sql, Lookup())) == AddIdentSpec(names, types, addTypes, Buf(old(sql), old(Lookup())), ident)
    {
      ghost var b := Buf(sql, Lookup());
      var fnIdx := -1;
      if ident != [] && ident[0] == '$' {
        fnIdx := Atoi(ident[1..]) - 1;
        if fnIdx < 0 || fnIdx >= |names| {
          return false;
        }
      } else {
        fnIdx := FindArgument(ident);
      }
      if fnIdx >= 0 {
        var sqlIdx := BindArgument(fnIdx);
        sql := sql + Ref(sqlIdx, types[fnIdx], addTypes);
      } else {
        sql := sql + ident;
      }
      ok := true;
    }

    /** add_ident's slot lookup: reuse the argument's slot, or take the next free one. */
    method BindArgument(fnIdx: nat) returns (sqlIdx: nat)
      requires Valid() && fnIdx < |names|
      modifies this`argCount, argLookup
      ensures Valid()
      ensures var bd := Bind(old(Lookup()), fnIdx); Lookup() == bd.lookup && sqlIdx == bd.slot
    {
      ghost var before := Lookup();
      BindKeepsLookupOk(before, fnIdx, |names|);
      var found := FindSlot(fnIdx);
      if found >= 0 {
        return found;
      }
      // a new slot for an argument not referenced before
      sqlIdx := argCount;
      argCount := argCount + 1;
      argLookup[sqlIdx] := fnIdx;
      assert Lookup() == before + [fnIdx];
    }

    /** add_ident's search of the argument names: the first match, or -1. */
    method FindArgument(ident: string) returns (fnIdx: int)
      ensures fnIdx == match FindFrom(ident, names, 0) case None => -1 case Some(i) => i
    {
      fnIdx := -1;
      var i := 0;
      while i < |names|
        invariant 0 <= i <= |names|
        invariant FindFrom(ident, names, i) == FindFrom(ident, names, 0)
      {
        if CaseEq(ident, names[i]) {
          return i;
        }
        i := i + 1;
      }
    }

    /** add_ident's search of the used slots: the slot carrying argument fnIdx, or -1. */
    method FindSlot(fnIdx: int) returns (sqlIdx: int)
      requires argCount <= argLookup.Length
      ensures var p := Position(Lookup(), fnIdx, 0); sqlIdx == if p < argCount then p else -1
    {
      sqlIdx := -1;
      var i := 0;
      while i < argCount
        invariant 0 <= i <= argCount
        invariant Position(Lookup(), fnIdx, i) == Position(Lookup(), fnIdx, 0)
      {
        if argLookup[i] == fnIdx {
          return i;
        }
        i := i + 1;
      }
    }

    /** plproxy_query_finish: the text and the used slots, copied. */
    method Finish() returns (pq: ProxyQuery)
      requires Valid()
      ensures pq == ProxyQuery(sql, argCount, Lookup())
      ensures LookupOk(pq.argLookup, |names|) && pq.argCount == |pq.argLookup| <= |names|
    {
      LookupFits(Lookup(), |names|);
      var lookup := new int[argCount];
      forall k | 0 <= k < argCount {
        lookup[k] := argLookup[k];
      }
      pq := ProxyQuery(sql, argCount, lookup[..]);
    }
  }

  // ------------------------------------------------------ standard query

  /** "$1,$2,...,$k", each with its ::type when types are added. */
  function RefList(types: seq<string>, addTypes: bool, k: nat): string
    requires k <= |types|
  {
    if k == 0 then []
    else RefList(types, addTypes, k - 1) + (if k > 1 then "," else "") + Ref(k - 1, types[k - 1], addTypes)
  }

  /** The identity slot table of the first k arguments. */
  function Identity(k: nat): (r: seq<int>)
    ensures |r| == k && forall i :: 0 <= i < k ==> r[i] == i
  {
    if k == 0 then [] else Identity(k - 1) + [k - 1]
  }

  /** plproxy_standard_query: "select * from name($1,...,$n)" with slot i carrying argument i. */
  method StandardQuery(name: string, names: seq<string>, types: seq<string>, addTypes: bool) returns (pq: ProxyQuery)
    requires |types| == |names|
    ensures pq.sql == "select * from " + name + "(" + RefList(types, addTypes, |names|) + ")"
    ensures pq.argCount == |names| && pq.argLookup == Identity(|names|)
  {
    var lookup := new int[|names|];
    var refs := "";
    var i := 0;
    while i < |names|
      invariant 0 <= i <= |names|
      invariant refs == RefList(types, addTypes, i)
      invariant forall k :: 0 <= k < i ==> lookup[k] == k
    {
      refs := refs + (if i > 0 then "," else "") + Ref(i, types[i], addTypes);
      lookup[i] := i;
      i := i + 1;
    }
    var sql := "select * from " + name + "(" + refs + ")";
    assert lookup[..] == Identity(|names|);
    pq := ProxyQuery(sql, |names|, lookup[..]);
  }

  /**
   * The buffer after adding "$1", ",", "$2", ..., "$k" to an empty one:
   * what a user query naming every argument in order would give.
   */
  function BuildRefs(names: seq<string>, types: seq<string>, addTypes: bool, k: nat): Buf
    requires |types| == |names| && k <= |names|
  {
    if k == 0 then Buf([], [])
    else
      var b := BuildRefs(names, types, addTypes, k - 1);
      var b' := if k > 1 then b.(sql := b.sql + ",") else b;
      AddIdentSpec(names, types, addTypes, b', "$" + Digits(k)).buf
  }

  /**
   * standard_query generates the parameter list the buffer would: each
   * "$i" takes the next slot, so the slot table is the identity and the
   * text is the same reference list.
   */
  lemma {:induction false} StandardMatchesBuffer(names: seq<string>, types: seq<string>, addTypes: bool, k: nat)
    requires |types| == |names| && k <= |names|
    ensures BuildRefs(names, types, addTypes, k) == Buf(RefList(types, addTypes, k), Identity(k))
  {
    if k > 0 {
      StandardMatchesBuffer(names, types, addTypes, k - 1);
      DollarResolves(k, names);
      BindNext(k - 1);
    }
  }

  /** "$k" names argument k-1. */
  lemma DollarResolves(k: nat, names: seq<string>)
    requires 1 <= k <= |names|
    ensures ResolveIdent("$" + Digits(k), names) == Param(k - 1)
  {
    var ident := "$" + Digits(k);
    assert ident[1..] == Digits(k) + [];
    AtoiOfDigits(k, []);
  }

  /** Argument k after the first k in order takes slot k. */
  lemma BindNext(k: nat)
    ensures Bind(Identity(k), k) == Binding(Identity(k + 1), k)
  {
    assert Position(Identity(k), k, 0) == k;
  }

}
