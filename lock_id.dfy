/** What `advisory_lock.__init__` computes from its arguments before any command
    is issued: the lock id's normal form, the PostgreSQL function names, the
    query template and the two parameter tuples. */
module LockId {
  import opened Wrappers
  import opened PyValues
  import Bitwise
  import Crc32
  import Utf8
  import Decimal
  import PercentFormat

  const Two31: int := 0x8000_0000
  const Two32: int := 0x1_0000_0000

  /** Folds an unsigned 32-bit checksum into PostgreSQL's `integer` range:
      `(2 ** 31 - 1) & pos`, less `2 ** 31` when bit 31 of `pos` is set.  This
      is the two's-complement reading of the 32 bits. */
  function FoldChecksum(pos: nat): (id: int)
    requires pos < Two32
    ensures -Two31 <= id < Two31
    ensures id == if pos < Two31 then pos else pos - Two32
  {
    Bitwise.AndLow31(pos);
    Bitwise.AndBit31(pos);
    var id := Bitwise.And(0x7FFF_FFFF, pos);
    if Bitwise.And(0x8000_0000, pos) != 0 then id - 0x8000_0000 else id
  }

  /** The id of a string key: the CRC-32 of its UTF-8 encoding, folded. */
  function StringId(s: string): (id: int)
    ensures -Two31 <= id < Two31
  {
    FoldChecksum(Crc32.Checksum(Utf8.Encode(s)) as int)
  }

  /** The fold agrees with the checksum modulo 2^32 ... */
  lemma FoldCongruent(pos: nat)
    requires pos < Two32
    ensures (FoldChecksum(pos) - pos) % Two32 == 0
  {
    var d := FoldChecksum(pos) - pos;
    if pos >= Two31 {
      assert d == -Two32;
      Bitwise.DivModUnique(d, Two32, -1, 0);
    } else {
      assert d == 0;
    }
  }

  /** ... and it is a bijection between [0, 2^32) and [-2^31, 2^31): no two
      checksums share an id, and every `integer` is the id of some checksum. */
  lemma FoldInjective(p: nat, q: nat)
    requires p < Two32 && q < Two32
    ensures FoldChecksum(p) == FoldChecksum(q) ==> p == q
  {
  }

  lemma FoldSurjective(id: int)
    requires -Two31 <= id < Two31
    ensures FoldChecksum(id % Two32) == id
  {
    if id < 0 {
      Bitwise.DivModUnique(id, Two32, -1, id + Two32);
    } else {
      Bitwise.DivModUnique(id, Two32, 0, id);
    }
  }

  /** A reference value with bit 31 clear: `"example"` has checksum 0x6EEC9B9F. */
  lemma StringIdExample()
    ensures StringId("example") == 1861000095
  {
    ExampleEncoding();
    ExampleChecksum();
  }

  lemma ExampleEncoding()
    ensures Utf8.Encode("example") == [0x65, 0x78, 0x61, 0x6D, 0x70, 0x6C, 0x65]
  {
    Utf8.EncodeAscii("example");
  }

  lemma ExampleChecksum()
    ensures Crc32.Checksum([0x65, 0x78, 0x61, 0x6D, 0x70, 0x6C, 0x65]) == 0x6EEC_9B9F
  {
  }

  /** A reference value with bit 31 set: `"a"` has checksum 0xE8B7BE43. */
  lemma StringIdNegativeExample()
    ensures StringId("a") == -390611389
  {
    assert Utf8.Encode("a") == [0x61];
    assert Crc32.Checksum([0x61]) == 0xE8B7_BE43;
  }

  /** Why `advisory_lock(...)` raises `ValueError`. */
  datatype KeyRejection =
      /** A list or tuple without exactly two entries. */
    | WrongLength
      /** A two-entry list or tuple with a member that is not an integer. */
    | NonIntegerMember
      /** Neither a list, a tuple, a string nor an integer. */
    | UnsupportedType

  /** What a lock id contributes to the parameter tuples, after the function name. */
  datatype LockArguments = Single(id: Value) | Pair(first: Value, second: Value)

  function Arguments(a: LockArguments): seq<Value> {
    match a
    case Single(id) => [id]
    case Pair(x, y) => [x, y]
  }

  /** Every argument is a Python integer, so `%d` accepts it. */
  predicate Integral(a: LockArguments) {
    forall v <- Arguments(a) :: IsInteger(v)
  }

  /** The key shapes the constructor accepts, stated independently of the order
      in which it tests them. */
  predicate ValidKey(lockId: Value) {
    IsInteger(lockId) || IsString(lockId)
    || (IsListOrTuple(lockId) && |lockId.items| == 2 && IsInteger(lockId.items[0]) && IsInteger(lockId.items[1]))
  }

  /** The key dispatch of the constructor: a list or tuple must hold exactly two
      integers and is kept as a pair; a string becomes its folded checksum; an
      integer is kept as it is; anything else is rejected. */
  function Normalize(lockId: Value): (r: Result<LockArguments, KeyRejection>)
    ensures r.Success? ==> Integral(r.value)
    ensures r.Success? ==> (r.value.Pair? <==> IsListOrTuple(lockId))
  {
    if IsListOrTuple(lockId) then
      var items := lockId.items;
      if |items| != 2 then Failure(WrongLength)
      else if !IsInteger(items[0]) || !IsInteger(items[1]) then Failure(NonIntegerMember)
      else Success(Pair(items[0], items[1]))
    else if IsString(lockId) then
      Success(Single(Int(StringId(lockId.s))))
    else if !IsInteger(lockId) then
      Failure(UnsupportedType)
    else
      Success(Single(lockId))
  }

  const SingleTemplate: string := "SELECT %s(%d)"
  const PairTemplate: string := "SELECT %s(%d, %d)"

  /** The template for the shape of the arguments. */
  function Template(a: LockArguments): string {
    if a.Pair? then PairTemplate else SingleTemplate
  }

  /** The lock function, assembled piece by piece from the two options. */
  function AcquireFunctionName(shared: bool, wait: bool): (name: string)
    ensures wait && !shared ==> name == "pg_advisory_lock"
    ensures wait && shared ==> name == "pg_advisory_lock_shared"
    ensures !wait && !shared ==> name == "pg_try_advisory_lock"
    ensures !wait && shared ==> name == "pg_try_advisory_lock_shared"
  {
    var name := "pg_";
    var name := if !wait then name + "try_" else name;
    var name := name + "advisory_lock";
    if shared then name + "_shared" else name
  }

  /** The unlock function; blocking or not, a lock is released the same way. */
  function ReleaseFunctionName(shared: bool): (name: string)
    ensures name == if shared then "pg_advisory_unlock_shared" else "pg_advisory_unlock"
  {
    var name := "pg_advisory_unlock";
    if shared then name + "_shared" else name
  }

  /** What the constructor stores: `query_base`, `acquire_params`, `release_params`. */
  datatype Query = Query(base: string, acquireParams: seq<Value>, releaseParams: seq<Value>)

  /** The constructor's computation, or the `ValueError` it raises. */
  function Build(lockId: Value, shared: bool, wait: bool): (r: Result<Query, KeyRejection>)
    ensures r.Success? <==> Normalize(lockId).Success?
  {
    match Normalize(lockId)
    case Failure(e) => Failure(e)
    case Success(a) =>
      Success(Query(Template(a),
                    [Str(AcquireFunctionName(shared, wait))] + Arguments(a),
                    [Str(ReleaseFunctionName(shared))] + Arguments(a)))
  }

  /** The SQL a call sends: `SELECT name(id)` or `SELECT name(first, second)`,
      the integers in decimal. */
  function CallText(name: string, a: LockArguments): string
    requires Integral(a)
  {
    "SELECT " + (name + ("(" + (ArgumentText(a) + ")")))
  }

  function ArgumentText(a: LockArguments): string
    requires Integral(a)
  {
    match a
    case Single(id) => Decimal.Render(IntValue(id))
    case Pair(x, y) => Decimal.Render(IntValue(x)) + (", " + Decimal.Render(IntValue(y)))
  }

  /** The integers the arguments stand for, in order. */
  function Ids(a: LockArguments): seq<int>
    requires Integral(a)
  {
    match a
    case Single(id) => [IntValue(id)]
    case Pair(x, y) => [IntValue(x), IntValue(y)]
  }

  /** The position of the first comma in `t`, or `|t|` when there is none. */
  function CommaIndex(t: string): (k: nat)
    ensures k <= |t|
  {
    if t == [] || t[0] == ',' then 0 else 1 + CommaIndex(t[1..])
  }

  /** Reads an argument text back: one integer, or two separated by `, `. */
  function ParseArguments(t: string): Option<seq<int>> {
    var k := CommaIndex(t);
    if k == |t| then
      match Decimal.Parse(t)
      case Some(n) => Some([n])
      case None => None
    else if k + 2 <= |t| && t[k + 1] == ' ' then
      match (Decimal.Parse(t[..k]), Decimal.Parse(t[k + 2..]))
      case (Some(x), Some(y)) => Some([x, y])
      case _ => None
    else
      None
  }

  // ---------------------------------------------------------------------------
  // Key validation

  /** The constructor accepts exactly the valid shapes ... */
  lemma NormalizeSucceedsIff(lockId: Value)
    ensures Normalize(lockId).Success? <==> ValidKey(lockId)
  {
  }

  /** ... and each rejection has exactly one cause. */
  lemma NormalizeRejections(lockId: Value)
    ensures Normalize(lockId) == Failure(WrongLength)
            <==> IsListOrTuple(lockId) && |lockId.items| != 2
    ensures Normalize(lockId) == Failure(NonIntegerMember)
            <==> IsListOrTuple(lockId) && |lockId.items| == 2
                 && !(IsInteger(lockId.items[0]) && IsInteger(lockId.items[1]))
    ensures Normalize(lockId) == Failure(UnsupportedType)
            <==> !IsListOrTuple(lockId) && !IsString(lockId) && !IsInteger(lockId)
  {
  }

  /** Whether a key is accepted, and why not, does not depend on the options. */
  lemma ValidationIgnoresOptions(lockId: Value, shared: bool, wait: bool, shared': bool, wait': bool)
    ensures Build(lockId, shared, wait).Failure? == Build(lockId, shared', wait').Failure?
    ensures Build(lockId, shared, wait).Failure? ==> Build(lockId, shared, wait).error == Build(lockId, shared', wait').error
  {
  }

  // ---------------------------------------------------------------------------
  // What the constructor stores for each key shape

  /** An integer key (a `bool` included) is passed through unchanged, with the
      one-argument template. */
  lemma IntegerKey(lockId: Value, shared: bool, wait: bool)
    requires IsInteger(lockId)
    ensures Build(lockId, shared, wait)
            == Success(Query(SingleTemplate, [Str(AcquireFunctionName(shared, wait)), lockId],
                                             [Str(ReleaseFunctionName(shared)), lockId]))
  {
    assert Normalize(lockId) == Success(Single(lockId));
    assert [Str(AcquireFunctionName(shared, wait))] + [lockId] == [Str(AcquireFunctionName(shared, wait)), lockId];
    assert [Str(ReleaseFunctionName(shared))] + [lockId] == [Str(ReleaseFunctionName(shared)), lockId];
  }

  /** A two-integer list or tuple keeps its order, with the two-argument template. */
  lemma PairKey(lockId: Value, shared: bool, wait: bool)
    requires IsListOrTuple(lockId) && |lockId.items| == 2
    requires IsInteger(lockId.items[0]) && IsInteger(lockId.items[1])
    ensures Build(lockId, shared, wait)
            == Success(Query(PairTemplate,
                             [Str(AcquireFunctionName(shared, wait)), lockId.items[0], lockId.items[1]],
                             [Str(ReleaseFunctionName(shared)), lockId.items[0], lockId.items[1]]))
  {
    var x, y := lockId.items[0], lockId.items[1];
    assert Normalize(lockId) == Success(Pair(x, y));
    assert [Str(AcquireFunctionName(shared, wait))] + [x, y] == [Str(AcquireFunctionName(shared, wait)), x, y];
    assert [Str(ReleaseFunctionName(shared))] + [x, y] == [Str(ReleaseFunctionName(shared)), x, y];
  }

  /** A string key becomes one signed 32-bit integer, with the one-argument template. */
  lemma StringKey(s: string, shared: bool, wait: bool)
    ensures Build(Str(s), shared, wait)
            == Success(Query(SingleTemplate, [Str(AcquireFunctionName(shared, wait)), Int(StringId(s))],
                                             [Str(ReleaseFunctionName(shared)), Int(StringId(s))]))
    ensures -Two31 <= StringId(s) < Two31
  {
    var id := Int(StringId(s));
    assert Normalize(Str(s)) == Success(Single(id));
    assert [Str(AcquireFunctionName(shared, wait))] + [id] == [Str(AcquireFunctionName(shared, wait)), id];
    assert [Str(ReleaseFunctionName(shared))] + [id] == [Str(ReleaseFunctionName(shared)), id];
  }

  /** The two parameter tuples differ only in their first element, the function
      name, so lock and unlock name the same id. */
  lemma ParamsShareArguments(lockId: Value, shared: bool, wait: bool)
    requires Build(lockId, shared, wait).Success?
    ensures var q := Build(lockId, shared, wait).value;
            |q.acquireParams| == |q.releaseParams| == |Arguments(Normalize(lockId).value)| + 1
            && q.acquireParams[0] == Str(AcquireFunctionName(shared, wait))
            && q.releaseParams[0] == Str(ReleaseFunctionName(shared))
            && q.acquireParams[1..] == q.releaseParams[1..] == Arguments(Normalize(lockId).value)
  {
    var a := Normalize(lockId).value;
    var q := Build(lockId, shared, wait).value;
    assert q.acquireParams[1..] == Arguments(a);
    assert q.releaseParams[1..] == Arguments(a);
  }

  // ---------------------------------------------------------------------------
  // Function names

  /** The two options give four distinct lock functions. */
  lemma AcquireFunctionNamesDistinct(shared: bool, wait: bool, shared': bool, wait': bool)
    ensures AcquireFunctionName(shared, wait) == AcquireFunctionName(shared', wait')
            <==> shared == shared' && wait == wait'
  {
    var n, n' := AcquireFunctionName(shared, wait), AcquireFunctionName(shared', wait');
    if wait != wait' {
      assert n[3] != n'[3];
    } else if shared != shared' {
      assert |n| != |n'|;
    }
  }

  /** A name ends in `_shared` exactly for shared locks, for lock and unlock alike. */
  predicate IsSharedVariant(name: string) {
    |name| >= 7 && name[|name| - 7..] == "_shared"
  }

  lemma FunctionNamesAgreeOnSharing(shared: bool, wait: bool)
    ensures IsSharedVariant(AcquireFunctionName(shared, wait)) == shared
    ensures IsSharedVariant(ReleaseFunctionName(shared)) == shared
  {
  }

  // ---------------------------------------------------------------------------
  // The commands

  /** The template applied to a parameter tuple gives the call's SQL text. */
  lemma FormatCall(name: string, a: LockArguments)
    requires Integral(a)
    ensures PercentFormat.Format(Template(a), [Str(name)] + Arguments(a)) == Some(CallText(name, a))
  {
    match a
    case Single(id) => FormatSingleCall(name, id);
    case Pair(x, y) =>
      FormatPairCall(name, x, y);
      var rx, ry := Decimal.Render(IntValue(x)), Decimal.Render(IntValue(y));
      assert (", " + ry) + ")" == ", " + (ry + ")");
      assert ArgumentText(a) + ")" == rx + (", " + (ry + ")"));
  }

  lemma FormatSingleCall(name: string, id: Value)
    requires IsInteger(id)
    ensures PercentFormat.Format(SingleTemplate, [Str(name)] + [id])
            == Some("SELECT " + (name + ("(" + (Decimal.Render(IntValue(id)) + ")"))))
  {
    var inner := "(" + (['%', 'd'] + ")");
    assert SingleTemplate == "SELECT " + (['%', 's'] + inner);
    assert [id] == [id] + [];
    PercentFormat.FormatEnd(")");
    PercentFormat.FormatStep("(", 'd', ")", id, []);
    PercentFormat.FormatStep("SELECT ", 's', inner, Str(name), [id]);
  }

  lemma FormatPairCall(name: string, x: Value, y: Value)
    requires IsInteger(x) && IsInteger(y)
    ensures PercentFormat.Format(PairTemplate, [Str(name)] + [x, y])
            == Some("SELECT " + (name + ("(" + (Decimal.Render(IntValue(x)) + (", " + (Decimal.Render(IntValue(y)) + ")"))))))
  {
    var rx, ry := Decimal.Render(IntValue(x)), Decimal.Render(IntValue(y));
    var second := ", " + (['%', 'd'] + ")");
    var first := "(" + (['%', 'd'] + second);
    assert PairTemplate == "SELECT " + (['%', 's'] + first);
    FormatPairArguments(x, y);
    assert PercentFormat.Format(first, [x, y]) == Some("(" + (rx + (", " + (ry + ")"))));
    PercentFormat.FormatStep("SELECT ", 's', first, Str(name), [x, y]);
  }

  lemma FormatPairArguments(x: Value, y: Value)
    requires IsInteger(x) && IsInteger(y)
    ensures PercentFormat.Format("(" + (['%', 'd'] + (", " + (['%', 'd'] + ")"))), [x, y])
            == Some("(" + (Decimal.Render(IntValue(x)) + (", " + (Decimal.Render(IntValue(y)) + ")"))))
  {
    var second := ", " + (['%', 'd'] + ")");
    assert [x, y] == [x] + [y];
    assert [y] == [y] + [];
    PercentFormat.FormatEnd(")");
    PercentFormat.FormatStep(", ", 'd', ")", y, []);
    assert PercentFormat.Format(second, [y]) == Some(", " + (Decimal.Render(IntValue(y)) + ")"));
    PercentFormat.FormatStep("(", 'd', second, x, [y]);
  }

  /** `query_base % acquire_params` and `query_base % release_params` never fail;
      they call the chosen functions on the same argument text. */
  lemma Commands(lockId: Value, shared: bool, wait: bool)
    requires Build(lockId, shared, wait).Success?
    ensures var q, a := Build(lockId, shared, wait).value, Normalize(lockId).value;
            PercentFormat.Format(q.base, q.acquireParams) == Some(CallText(AcquireFunctionName(shared, wait), a))
            && PercentFormat.Format(q.base, q.releaseParams) == Some(CallText(ReleaseFunctionName(shared), a))
  {
    var a := Normalize(lockId).value;
    FormatCall(AcquireFunctionName(shared, wait), a);
    FormatCall(ReleaseFunctionName(shared), a);
  }

  // ---------------------------------------------------------------------------
  // The command text names the lock

  lemma {:induction false} CommaIndexAfter(u: string, w: string)
    requires forall i :: 0 <= i < |u| ==> u[i] != ','
    ensures CommaIndex(u + w) == |u| + CommaIndex(w)
  {
    if u != [] {
      assert (u + w)[1..] == u[1..] + w;
      CommaIndexAfter(u[1..], w);
    } else {
      assert u + w == w;
    }
  }

  /** The argument text reads back as the ids it was written from. */
  lemma ParseArgumentText(a: LockArguments)
    requires Integral(a)
    ensures ParseArguments(ArgumentText(a)) == Some(Ids(a))
  {
    match a
    case Single(id) =>
      var r := Decimal.Render(IntValue(id));
      CommaIndexAfter(r, []);
      assert r + [] == r;
      Decimal.ParseRender(IntValue(id));
    case Pair(x, y) =>
      var rx, ry := Decimal.Render(IntValue(x)), Decimal.Render(IntValue(y));
      var t := rx + (", " + ry);
      CommaIndexAfter(rx, ", " + ry);
      assert t[..|rx|] == rx && t[|rx| + 1] == ' ' && t[|rx| + 2..] == ry;
      Decimal.ParseRender(IntValue(x));
      Decimal.ParseRender(IntValue(y));
  }

  /** The argument text sits between the opening parenthesis and the last character. */
  lemma ArgumentTextOfCall(name: string, a: LockArguments)
    requires Integral(a)
    ensures var c := CallText(name, a);
            |c| == |name| + |ArgumentText(a)| + 9 && c[|name| + 8..|c| - 1] == ArgumentText(a)
  {
  }

  /** Two calls of one function send the same text only for the same ids, so the
      statement sent identifies the lock. */
  lemma CallTextDeterminesIds(name: string, a: LockArguments, b: LockArguments)
    requires Integral(a) && Integral(b)
    ensures CallText(name, a) == CallText(name, b) ==> Ids(a) == Ids(b)
  {
    if CallText(name, a) == CallText(name, b) {
      ArgumentTextOfCall(name, a);
      ArgumentTextOfCall(name, b);
      assert ArgumentText(a) == ArgumentText(b);
      ParseArgumentText(a);
      ParseArgumentText(b);
    }
  }
}
