/**
 * The discovery cursor (agent/src/core/DiscoveryCursor.ts).
 *
 * A list of address ranges declares one long space of IPv4 addresses. A cursor (range index, offset)
 * is a place in that space; `Position` is the one number it stands for, and `CursorAt` is the
 * canonical cursor for a number. The two loops of the source, `AdvanceCursor` and `PlanChunk`, are
 * proved against that linear reading of the space.
 */
module DiscoveryCursor {
  type octet = x: int | 0 <= x < 256

  /** A dotted address; the text form itself is not part of this model. */
  datatype Address = Address(a: octet, b: octet, c: octet, d: octet)

  datatype CursorRange = CursorRange(start: Address, end: Address)

  datatype Cursor = Cursor(rangeIdx: int, offset: int)

  /** One entry of a plan: the address to probe and the range it was declared by. */
  datatype Probe = Probe(ip: Address, rangeIdx: nat)

  datatype ChunkPlan = ChunkPlan(ips: seq<Address>, rangeIdxOf: seq<nat>, next: Cursor, reachesEnd: bool)

  datatype AdvanceResult = AdvanceResult(next: Cursor, lapComplete: bool)

  const CURSOR_START := Cursor(0, 0)

  function Max(x: int, y: int): int {
    if x < y then y else x
  }

  function Min(x: int, y: int): int {
    if x < y then x else y
  }

  function ToInt(ip: Address): int {
    ((ip.a * 256 + ip.b) * 256 + ip.c) * 256 + ip.d
  }

  /** The shifts of the source act on the low 32 bits of their operand, whatever it is. */
  function ToIp(n: int): Address {
    Address((n / 256 / 256 / 256) % 256, (n / 256 / 256) % 256, (n / 256) % 256, n % 256)
  }

  /** Four base-256 digits of a number below 2^32 are the number again. */
  lemma ToIpInverts(n: int)
    requires 0 <= n < 0x1_0000_0000
    ensures ToInt(ToIp(n)) == n
  {
    var x := n / 256;
    var y := x / 256;
    var z := y / 256;
    assert n == x * 256 + n % 256 && x == y * 256 + x % 256 && y == z * 256 + y % 256;
    assert 0 <= z < 256 && z % 256 == z;
  }

  lemma ToIntInverts(ip: Address)
    ensures 0 <= ToInt(ip) < 0x1_0000_0000
    ensures ToIp(ToInt(ip)) == ip
  {
    var n := ToInt(ip);
    assert n / 256 == (ip.a * 256 + ip.b) * 256 + ip.c;
    assert n / 256 / 256 == ip.a * 256 + ip.b;
  }

  function RangeSize(range: CursorRange): nat {
    var size := ToInt(range.end) - ToInt(range.start) + 1;
    if size > 0 then size else 0
  }

  /** How many addresses the first `k` ranges declare. */
  function Before(ranges: seq<CursorRange>, k: nat): nat
    requires k <= |ranges|
  {
    if k == 0 then 0 else Before(ranges, k - 1) + RangeSize(ranges[k - 1])
  }

  function TotalDeclaredIps(ranges: seq<CursorRange>): nat {
    Before(ranges, |ranges|)
  }

  /** The declared space: every address of every range, in order. */
  ghost function Space(ranges: seq<CursorRange>): seq<Probe> {
    SpaceUpTo(ranges, |ranges|)
  }

  ghost function SpaceUpTo(ranges: seq<CursorRange>, k: nat): (space: seq<Probe>)
    requires k <= |ranges|
    ensures |space| == Before(ranges, k)
  {
    if k == 0 then [] else SpaceUpTo(ranges, k - 1) + Declared(ranges[k - 1], k - 1)
  }

  /** The addresses of one range. */
  ghost function Declared(range: CursorRange, k: nat): (probes: seq<Probe>)
    ensures |probes| == RangeSize(range)
  {
    seq(RangeSize(range), i => Probe(ToIp(ToInt(range.start) + i), k))
  }

  function Clamp(ranges: seq<CursorRange>, cursor: Cursor): Cursor {
    if cursor.rangeIdx < 0 || cursor.rangeIdx >= |ranges| || cursor.offset < 0 then CURSOR_START
    else if cursor.offset >= RangeSize(ranges[cursor.rangeIdx]) then Cursor(cursor.rangeIdx + 1, 0)
    else cursor
  }

  /** The number a cursor stands for, after the source's own normalisation. */
  function Position(ranges: seq<CursorRange>, cursor: Cursor): nat {
    var c := Clamp(ranges, cursor);
    Before(ranges, c.rangeIdx) + c.offset
  }

  /** A cursor that points at an address, and not past the end of its range. */
  predicate Canonical(ranges: seq<CursorRange>, cursor: Cursor) {
    0 <= cursor.rangeIdx < |ranges| && 0 <= cursor.offset < RangeSize(ranges[cursor.rangeIdx])
  }

  lemma {:induction false} BeforeGrows(ranges: seq<CursorRange>, j: nat, k: nat)
    requires j <= k <= |ranges|
    ensures Before(ranges, j) <= Before(ranges, k)
    ensures j < k ==> Before(ranges, j) + RangeSize(ranges[j]) <= Before(ranges, k)
    decreases k - j
  {
    hide RangeSize;
    if j < k {
      BeforeGrows(ranges, j, k - 1);
    }
  }

  lemma PositionInSpace(ranges: seq<CursorRange>, cursor: Cursor)
    ensures Position(ranges, cursor) <= TotalDeclaredIps(ranges)
    ensures Canonical(ranges, cursor) ==> Position(ranges, cursor) < TotalDeclaredIps(ranges)
  {
    var c := Clamp(ranges, cursor);
    if c.rangeIdx < |ranges| {
      BeforeGrows(ranges, c.rangeIdx, |ranges|);
    }
  }

  /** A canonical cursor is determined by its linear position. */
  lemma CanonicalIsUnique(ranges: seq<CursorRange>, c: Cursor, d: Cursor)
    requires Canonical(ranges, c) && Canonical(ranges, d)
    requires Position(ranges, c) == Position(ranges, d)
    ensures c == d
  {
    hide RangeSize;
    if c.rangeIdx < d.rangeIdx {
      BeforeGrows(ranges, c.rangeIdx, d.rangeIdx);
    } else if d.rangeIdx < c.rangeIdx {
      BeforeGrows(ranges, d.rangeIdx, c.rangeIdx);
    }
  }

  /** The canonical cursor of a position, searched for from the front. */
  function CursorAt(ranges: seq<CursorRange>, p: nat, k: nat := 0): (cursor: Cursor)
    requires k <= |ranges| && Before(ranges, k) <= p < TotalDeclaredIps(ranges)
    ensures Canonical(ranges, cursor) && Position(ranges, cursor) == p
    decreases |ranges| - k
  {
    if p < Before(ranges, k) + RangeSize(ranges[k]) then Cursor(k, p - Before(ranges, k))
    else CursorAt(ranges, p, k + 1)
  }

  /** The cursor a loop stands at names the position the loop has counted to. */
  lemma CursorAtIs(ranges: seq<CursorRange>, rangeIdx: nat, offset: nat)
    requires Canonical(ranges, Cursor(rangeIdx, offset))
    ensures Before(ranges, rangeIdx) + offset < TotalDeclaredIps(ranges)
    ensures Position(ranges, Cursor(rangeIdx, offset)) == Before(ranges, rangeIdx) + offset
    ensures CursorAt(ranges, Before(ranges, rangeIdx) + offset) == Cursor(rangeIdx, offset)
  {
    hide RangeSize;
    var c := Cursor(rangeIdx, offset);
    PositionInSpace(ranges, c);
    CanonicalIsUnique(ranges, c, CursorAt(ranges, Position(ranges, c)));
  }

  /** What advancing means on the line: move, and stop at the end of the declared space. */
  function Advance(ranges: seq<CursorRange>, cursor: Cursor, count: int): (r: AdvanceResult)
    ensures r.lapComplete ==> r.next == CURSOR_START
    ensures !r.lapComplete ==> Canonical(ranges, r.next)
    ensures !r.lapComplete ==> Position(ranges, r.next) == Position(ranges, cursor) + Max(0, count)
  {
    var p := Position(ranges, cursor) + Max(0, count);
    if p >= TotalDeclaredIps(ranges) then AdvanceResult(CURSOR_START, true)
    else AdvanceResult(CursorAt(ranges, p), false)
  }

  /** A loop that has counted to its target at an address answers with the cursor it stands at. */
  lemma AdvanceStops(ranges: seq<CursorRange>, cursor: Cursor, count: int, rangeIdx: nat, offset: nat)
    requires Canonical(ranges, Cursor(rangeIdx, offset))
    requires Position(ranges, cursor) + Max(0, count) == Before(ranges, rangeIdx) + offset
    ensures Advance(ranges, cursor, count) == AdvanceResult(Cursor(rangeIdx, offset), false)
  {
    hide RangeSize;
    CursorAtIs(ranges, rangeIdx, offset);
  }

  /** A loop that has run out of ranges closes the lap. */
  lemma AdvanceCloses(ranges: seq<CursorRange>, cursor: Cursor, count: int)
    requires Position(ranges, cursor) + Max(0, count) >= Before(ranges, |ranges|)
    ensures Advance(ranges, cursor, count) == AdvanceResult(CURSOR_START, true)
  {
    hide RangeSize;
  }

  /** The range-by-range arithmetic of the source computes the same move. */
  method AdvanceCursor(ranges: seq<CursorRange>, cursor: Cursor, count: int)
    returns (next: Cursor, lapComplete: bool)
    ensures AdvanceResult(next, lapComplete) == Advance(ranges, cursor, count)
  {
    hide RangeSize;
    if |ranges| == 0 {
      return CURSOR_START, true;
    }
    var c := Clamp(ranges, cursor);
    var rangeIdx, offset := c.rangeIdx, c.offset;
    var remaining := Max(0, count);
    ghost var target := Position(ranges, cursor) + remaining;
    while rangeIdx < |ranges|
      invariant 0 <= rangeIdx <= |ranges| && 0 <= remaining
      invariant offset == 0 || Canonical(ranges, Cursor(rangeIdx, offset))
      invariant Before(ranges, rangeIdx) + offset + remaining == target
    {
      var available := RangeSize(ranges[rangeIdx]) - offset;
      if available <= 0 {
        rangeIdx, offset := rangeIdx + 1, 0;
        continue;
      }
      if remaining < available {
        AdvanceStops(ranges, cursor, count, rangeIdx, offset + remaining);
        return Cursor(rangeIdx, offset + remaining), false;
      }
      ghost var done := Before(ranges, rangeIdx + 1);
      assert done == Before(ranges, rangeIdx) + RangeSize(ranges[rangeIdx]);
      remaining, rangeIdx, offset := remaining - available, rangeIdx + 1, 0;
      if remaining == 0 {
        rangeIdx := SkipEmpty(ranges, rangeIdx);
        if rangeIdx >= |ranges| {
          AdvanceCloses(ranges, cursor, count);
          return CURSOR_START, true;
        }
        AdvanceStops(ranges, cursor, count, rangeIdx, 0);
        return Cursor(rangeIdx, 0), false;
      }
    }
    AdvanceCloses(ranges, cursor, count);
    return CURSOR_START, true;
  }

  /** The inner loop of `AdvanceCursor`: on to the next range that declares something. */
  method SkipEmpty(ranges: seq<CursorRange>, from: nat) returns (rangeIdx: nat)
    requires from <= |ranges|
    ensures from <= rangeIdx <= |ranges| && Before(ranges, rangeIdx) == Before(ranges, from)
    ensures rangeIdx < |ranges| ==> RangeSize(ranges[rangeIdx]) > 0
  {
    rangeIdx := from;
    while rangeIdx < |ranges| && RangeSize(ranges[rangeIdx]) == 0
      invariant from <= rangeIdx <= |ranges| && Before(ranges, rangeIdx) == Before(ranges, from)
    {
      rangeIdx := rangeIdx + 1;
    }
  }

  lemma SpaceGrows(ranges: seq<CursorRange>, k: nat, i: nat)
    requires k < |ranges| && i < Before(ranges, k)
    ensures i < Before(ranges, k + 1) && SpaceUpTo(ranges, k + 1)[i] == SpaceUpTo(ranges, k)[i]
  {
  }

  /** Offset `o` of range `k` sits `Before(k) + o` places into the declared space. */
  lemma {:induction false} SpaceAt(ranges: seq<CursorRange>, k: nat, o: nat, upTo: nat)
    requires k < upTo <= |ranges| && o < RangeSize(ranges[k])
    ensures Before(ranges, k) + o < Before(ranges, upTo)
    ensures SpaceUpTo(ranges, upTo)[Before(ranges, k) + o] == Declared(ranges[k], k)[o]
  {
    hide RangeSize;
    if k + 1 < upTo {
      SpaceAt(ranges, k, o, upTo - 1);
      SpaceGrows(ranges, upTo - 1, Before(ranges, k) + o);
    }
  }

  lemma DeclaredAt(range: CursorRange, k: nat, o: nat)
    requires o < RangeSize(range)
    ensures Declared(range, k)[o] == Probe(ToIp(ToInt(range.start) + o), k)
  {
  }

  /** The stretch of the declared space a plan of at most `maxIps` addresses should hold. */
  ghost function Planned(ranges: seq<CursorRange>, cursor: Cursor, maxIps: int): (probes: seq<Probe>)
    ensures |probes| == Max(0, Min(maxIps, TotalDeclaredIps(ranges) - Position(ranges, cursor)))
  {
    PositionInSpace(ranges, cursor);
    var p := Position(ranges, cursor);
    Space(ranges)[p..p + Max(0, Min(maxIps, TotalDeclaredIps(ranges) - p))]
  }

  ghost function Probes(plan: ChunkPlan): seq<Probe>
    requires |plan.ips| == |plan.rangeIdxOf|
  {
    seq(|plan.ips|, j requires 0 <= j < |plan.ips| => Probe(plan.ips[j], plan.rangeIdxOf[j]))
  }

  /**
   * When a plan says that consuming it closes the lap. The last disjunct is where the plan and
   * `Advance` part: with trailing empty ranges the plan stops short of noticing the end.
   */
  predicate ReachesEnd(ranges: seq<CursorRange>, cursor: Cursor, maxIps: int) {
    || |ranges| == 0
    || maxIps <= 0
    || Position(ranges, cursor) + maxIps > TotalDeclaredIps(ranges)
    || (Position(ranges, cursor) + maxIps == TotalDeclaredIps(ranges) && RangeSize(ranges[|ranges| - 1]) > 0)
  }

  /** The materialised addresses are the declared space from position `p` on. */
  ghost predicate Follows(ranges: seq<CursorRange>, p: nat, ips: seq<Address>, rangeIdxOf: seq<nat>) {
    && |ips| == |rangeIdxOf|
    && p + |ips| <= TotalDeclaredIps(ranges)
    && forall j | 0 <= j < |ips| :: Probe(ips[j], rangeIdxOf[j]) == Space(ranges)[p + j]
  }

  lemma FollowsOneMore(ranges: seq<CursorRange>, p: nat, ips: seq<Address>, rangeIdxOf: seq<nat>, ip: Address, k: nat)
    requires Follows(ranges, p, ips, rangeIdxOf)
    requires p + |ips| < TotalDeclaredIps(ranges) && Space(ranges)[p + |ips|] == Probe(ip, k)
    ensures Follows(ranges, p, ips + [ip], rangeIdxOf + [k])
  {
  }

  /** Where the planning loop stops, out of ranges or with a full plan, decides `reachesEnd`. */
  lemma PlanStops(ranges: seq<CursorRange>, cursor: Cursor, maxIps: int, taken: nat, rangeIdx: nat, offset: nat)
    requires |ranges| > 0 && 0 < maxIps && rangeIdx <= |ranges|
    requires taken <= maxIps && (rangeIdx == |ranges| || taken == maxIps)
    requires offset == 0 || Canonical(ranges, Cursor(rangeIdx, offset))
    requires Position(ranges, cursor) + taken == Before(ranges, rangeIdx) + offset
    requires taken == maxIps ==> offset > 0 || (rangeIdx > 0 && RangeSize(ranges[rangeIdx - 1]) > 0)
    ensures rangeIdx == |ranges| <==> ReachesEnd(ranges, cursor, maxIps)
    ensures taken == Max(0, Min(maxIps, TotalDeclaredIps(ranges) - Position(ranges, cursor)))
  {
    hide RangeSize;
    if rangeIdx < |ranges| {
      StopsShort(ranges, rangeIdx, offset);
    }
  }

  lemma StopsShort(ranges: seq<CursorRange>, rangeIdx: nat, offset: nat)
    requires rangeIdx < |ranges| && (offset == 0 || Canonical(ranges, Cursor(rangeIdx, offset)))
    ensures Before(ranges, rangeIdx) + offset <= TotalDeclaredIps(ranges)
    ensures Before(ranges, rangeIdx) + offset == TotalDeclaredIps(ranges) ==> RangeSize(ranges[|ranges| - 1]) == 0
  {
    hide RangeSize;
    BeforeGrows(ranges, rangeIdx, |ranges| - 1);
    BeforeGrows(ranges, rangeIdx, |ranges|);
  }

  lemma CursorStandsFor(ranges: seq<CursorRange>, rangeIdx: nat, offset: nat)
    requires rangeIdx < |ranges| && (offset == 0 || Canonical(ranges, Cursor(rangeIdx, offset)))
    ensures Position(ranges, Cursor(rangeIdx, offset)) == Before(ranges, rangeIdx) + offset
  {
    hide RangeSize;
    assert Before(ranges, rangeIdx + 1) == Before(ranges, rangeIdx) + RangeSize(ranges[rangeIdx]);
  }

  lemma FollowsIsPlanned(ranges: seq<CursorRange>, cursor: Cursor, maxIps: int, plan: ChunkPlan)
    requires Follows(ranges, Position(ranges, cursor), plan.ips, plan.rangeIdxOf)
    requires |plan.ips| == |Planned(ranges, cursor, maxIps)|
    ensures Probes(plan) == Planned(ranges, cursor, maxIps)
  {
    var p := Position(ranges, cursor);
    forall j | 0 <= j < |plan.ips|
      ensures Probes(plan)[j] == Planned(ranges, cursor, maxIps)[j]
    {
      assert Planned(ranges, cursor, maxIps)[j] == Space(ranges)[p + j];
    }
  }

  method PlanChunk(ranges: seq<CursorRange>, cursor: Cursor, maxIps: int) returns (plan: ChunkPlan)
    ensures |plan.ips| == |plan.rangeIdxOf| && Probes(plan) == Planned(ranges, cursor, maxIps)
    ensures plan.reachesEnd <==> ReachesEnd(ranges, cursor, maxIps)
    ensures plan.reachesEnd ==> plan.next == CURSOR_START
    ensures !plan.reachesEnd ==> Position(ranges, plan.next) == Position(ranges, cursor) + |plan.ips|
    ensures !plan.reachesEnd ==> plan.next.offset == 0 || Canonical(ranges, plan.next)
    ensures !plan.reachesEnd ==> 0 <= plan.next.rangeIdx < |ranges|
  {
    hide RangeSize;
    var ips: seq<Address>, rangeIdxOf: seq<nat> := [], [];
    if |ranges| == 0 || maxIps <= 0 {
      return ChunkPlan(ips, rangeIdxOf, CURSOR_START, true);
    }
    var c := Clamp(ranges, cursor);
    var rangeIdx, offset := c.rangeIdx, c.offset;
    ghost var p := Position(ranges, cursor);
    PositionInSpace(ranges, cursor);
    while rangeIdx < |ranges| && |ips| < maxIps
      invariant 0 <= rangeIdx <= |ranges| && |ips| <= maxIps
      invariant offset == 0 || Canonical(ranges, Cursor(rangeIdx, offset))
      invariant p + |ips| == Before(ranges, rangeIdx) + offset
      invariant Follows(ranges, p, ips, rangeIdxOf)
      invariant |ips| == maxIps ==> offset > 0 || (rangeIdx > 0 && RangeSize(ranges[rangeIdx - 1]) > 0)
      decreases |ranges| - rangeIdx, maxIps - |ips|
    {
      var size := RangeSize(ranges[rangeIdx]);
      if offset >= size {
        rangeIdx, offset := rangeIdx + 1, 0;
        continue;
      }
      var take := Min(size - offset, maxIps - |ips|);
      assert 0 < take && Before(ranges, rangeIdx + 1) == Before(ranges, rangeIdx) + size;
      ips, rangeIdxOf := TakeFrom(ranges, p, rangeIdx, offset, take, ips, rangeIdxOf);
      offset := offset + take;
      if offset >= size {
        rangeIdx, offset := rangeIdx + 1, 0;
      }
    }
    PlanStops(ranges, cursor, maxIps, |ips|, rangeIdx, offset);
    var reachesEnd := rangeIdx >= |ranges|;
    if !reachesEnd {
      CursorStandsFor(ranges, rangeIdx, offset);
    }
    plan := ChunkPlan(ips, rangeIdxOf, if reachesEnd then CURSOR_START else Cursor(rangeIdx, offset), reachesEnd);
    FollowsIsPlanned(ranges, cursor, maxIps, plan);
  }

  /** The inner loop of `PlanChunk`: `take` addresses of one range. */
  method TakeFrom(ranges: seq<CursorRange>, ghost p: nat, rangeIdx: nat, offset: nat, take: nat,
                  ips0: seq<Address>, rangeIdxOf0: seq<nat>)
    returns (ips: seq<Address>, rangeIdxOf: seq<nat>)
    requires rangeIdx < |ranges| && offset + take <= RangeSize(ranges[rangeIdx])
    requires Follows(ranges, p, ips0, rangeIdxOf0)
    requires p + |ips0| == Before(ranges, rangeIdx) + offset
    ensures Follows(ranges, p, ips, rangeIdxOf) && |ips| == |ips0| + take
  {
    ips, rangeIdxOf := ips0, rangeIdxOf0;
    var base := ToInt(ranges[rangeIdx].start);
    for i := 0 to take
      invariant Follows(ranges, p, ips, rangeIdxOf) && |ips| == |ips0| + i
    {
      var ip := ToIp(base + offset + i);
      SpaceAt(ranges, rangeIdx, offset + i, |ranges|);
      DeclaredAt(ranges[rangeIdx], rangeIdx, offset + i);
      FollowsOneMore(ranges, p, ips, rangeIdxOf, ip, rangeIdx);
      ips, rangeIdxOf := ips + [ip], rangeIdxOf + [rangeIdx];
    }
  }

  /** When a plan and `Advance` agree that consuming the whole plan closes the lap. */
  predicate EndAgrees(ranges: seq<CursorRange>, cursor: Cursor, maxIps: int) {
    var p, total := Position(ranges, cursor), TotalDeclaredIps(ranges);
    || |ranges| == 0
    || (maxIps <= 0 && p == total)
    || (maxIps > 0 && (p + maxIps != total || RangeSize(ranges[|ranges| - 1]) > 0))
  }

  /** They agree on the end exactly then. */
  lemma EndAgreesIff(ranges: seq<CursorRange>, cursor: Cursor, maxIps: int)
    ensures (Advance(ranges, cursor, |Planned(ranges, cursor, maxIps)|).lapComplete <==> ReachesEnd(ranges, cursor, maxIps))
       <==> EndAgrees(ranges, cursor, maxIps)
  {
    hide RangeSize;
    PositionInSpace(ranges, cursor);
  }

  /** And where neither is at the end, on the next cursor exactly when the plan's points at an address. */
  lemma WholePlanAgrees(ranges: seq<CursorRange>, cursor: Cursor, maxIps: int, next: Cursor)
    requires !ReachesEnd(ranges, cursor, maxIps) && 0 <= next.rangeIdx < |ranges|
    requires next.offset == 0 || Canonical(ranges, next)
    requires Position(ranges, next) == Position(ranges, cursor) + |Planned(ranges, cursor, maxIps)|
    ensures var r := Advance(ranges, cursor, |Planned(ranges, cursor, maxIps)|);
            && (!r.lapComplete ==> (r.next == next <==> Canonical(ranges, next)))
            && (RangeSize(ranges[next.rangeIdx]) > 0 ==> !r.lapComplete && r.next == next)
  {
    hide RangeSize;
    PositionInSpace(ranges, cursor);
    PositionInSpace(ranges, next);
    var r := Advance(ranges, cursor, |Planned(ranges, cursor, maxIps)|);
    if !r.lapComplete && Canonical(ranges, next) {
      CanonicalIsUnique(ranges, next, r.next);
    }
  }

  /** With a trailing empty range the plan of the last address does not reach the end, `Advance` does. */
  lemma TrailingEmptyRangeDisagrees()
    ensures var one := CursorRange(Address(10, 0, 0, 1), Address(10, 0, 0, 1));
            var inverted := CursorRange(Address(10, 0, 9, 9), Address(10, 0, 9, 1));
            && !ReachesEnd([one, inverted], CURSOR_START, 1)
            && Advance([one, inverted], CURSOR_START, 1).lapComplete
  {
    var one := CursorRange(Address(10, 0, 0, 1), Address(10, 0, 0, 1));
    var inverted := CursorRange(Address(10, 0, 9, 9), Address(10, 0, 9, 1));
    var ranges := [one, inverted];
    assert RangeSize(one) == 1 && RangeSize(inverted) == 0;
    assert Before(ranges, 0) == 0;
    assert Before(ranges, 1) == Before(ranges, 0) + RangeSize(ranges[0]);
    assert Before(ranges, 2) == Before(ranges, 1) + RangeSize(ranges[1]);
  }

  // ---- what the declared space holds, octet by octet ----

  /** The order of addresses as they are written. */
  predicate AtMost(x: Address, y: Address) {
    x.a < y.a || (x.a == y.a && (x.b < y.b || (x.b == y.b && (x.c < y.c || (x.c == y.c && x.d <= y.d)))))
  }

  /** The numbers of addresses are in the order of the addresses. */
  lemma NumbersFollowOctets(x: Address, y: Address)
    ensures AtMost(x, y) <==> ToInt(x) <= ToInt(y)
  {
  }

  lemma DeclaredHolds(range: CursorRange, k: nat, ip: Address)
    ensures Probe(ip, k) in Declared(range, k) <==> AtMost(range.start, ip) && AtMost(ip, range.end)
  {
    NumbersFollowOctets(range.start, ip);
    NumbersFollowOctets(ip, range.end);
    ToIntInverts(ip);
    ToIntInverts(range.start);
    ToIntInverts(range.end);
    hide ToInt, ToIp;
    if ToInt(range.start) <= ToInt(ip) <= ToInt(range.end) {
      DeclaredAt(range, k, ToInt(ip) - ToInt(range.start));
    }
    if Probe(ip, k) in Declared(range, k) {
      var o :| 0 <= o < RangeSize(range) && Declared(range, k)[o] == Probe(ip, k);
      DeclaredAt(range, k, o);
      ToIpInverts(ToInt(range.start) + o);
    }
  }

  lemma {:induction false} SpaceUpToHolds(ranges: seq<CursorRange>, upTo: nat, ip: Address, k: nat)
    requires upTo <= |ranges|
    ensures Probe(ip, k) in SpaceUpTo(ranges, upTo)
       <==> k < upTo && AtMost(ranges[k].start, ip) && AtMost(ip, ranges[k].end)
    decreases upTo
  {
    hide AtMost, RangeSize;
    if upTo > 0 {
      SpaceUpToHolds(ranges, upTo - 1, ip, k);
      DeclaredHolds(ranges[upTo - 1], upTo - 1, ip);
      OfItsRange(ranges[upTo - 1], upTo - 1);
    }
  }

  lemma OfItsRange(range: CursorRange, k: nat)
    ensures forall x | x in Declared(range, k) :: x.rangeIdx == k
  {
    hide ToInt, ToIp;
  }

  /** An address is declared by a range exactly if it lies between its ends. */
  lemma SpaceHolds(ranges: seq<CursorRange>, ip: Address, k: nat)
    ensures Probe(ip, k) in Space(ranges)
       <==> k < |ranges| && AtMost(ranges[k].start, ip) && AtMost(ip, ranges[k].end)
  {
    SpaceUpToHolds(ranges, |ranges|, ip, k);
  }

  /** Ranges come in the order of the list, and the addresses of one strictly ascend. */
  ghost predicate Ascends(x: Probe, y: Probe) {
    x.rangeIdx < y.rangeIdx || (x.rangeIdx == y.rangeIdx && AtMost(x.ip, y.ip) && x.ip != y.ip)
  }

  lemma DeclaredAscends(range: CursorRange, k: nat, i: nat, j: nat)
    requires i < j < RangeSize(range)
    ensures Ascends(Declared(range, k)[i], Declared(range, k)[j])
  {
    DeclaredAt(range, k, i);
    DeclaredAt(range, k, j);
    ToIntInverts(range.start);
    ToIntInverts(range.end);
    hide ToIp;
    ToIpInverts(ToInt(range.start) + i);
    ToIpInverts(ToInt(range.start) + j);
    NumbersFollowOctets(ToIp(ToInt(range.start) + i), ToIp(ToInt(range.start) + j));
  }

  lemma {:induction false} SpaceUpToAscends(ranges: seq<CursorRange>, upTo: nat)
    requires upTo <= |ranges|
    ensures forall i | 0 <= i < |SpaceUpTo(ranges, upTo)| :: SpaceUpTo(ranges, upTo)[i].rangeIdx < upTo
    ensures forall i, j | 0 <= i < j < |SpaceUpTo(ranges, upTo)| :: Ascends(SpaceUpTo(ranges, upTo)[i], SpaceUpTo(ranges, upTo)[j])
    decreases upTo
  {
    hide AtMost, RangeSize;
    if upTo > 0 {
      SpaceUpToAscends(ranges, upTo - 1);
      var front, back := SpaceUpTo(ranges, upTo - 1), Declared(ranges[upTo - 1], upTo - 1);
      OfItsRange(ranges[upTo - 1], upTo - 1);
      forall i, j | 0 <= i < j < |front + back| ensures Ascends((front + back)[i], (front + back)[j]) {
        if i >= |front| {
          DeclaredAscends(ranges[upTo - 1], upTo - 1, i - |front|, j - |front|);
        } else if j >= |front| {
          assert (front + back)[j] == back[j - |front|];
          assert back[j - |front|] in back;
        }
      }
    }
  }

  /** The declared space is in strictly ascending order, range after range; so it holds nothing twice. */
  lemma SpaceAscends(ranges: seq<CursorRange>, i: nat, j: nat)
    requires i < j < |Space(ranges)|
    ensures Ascends(Space(ranges)[i], Space(ranges)[j]) && Space(ranges)[i] != Space(ranges)[j]
  {
    SpaceUpToAscends(ranges, |ranges|);
  }

  /** Where a saved cursor stands: past its range it is at the next one's start, and a corrupt one at the first's. */
  lemma PositionIs(ranges: seq<CursorRange>, c: Cursor)
    ensures if 0 <= c.rangeIdx < |ranges| && c.offset >= 0
            then Position(ranges, c) == Before(ranges, c.rangeIdx) + Min(c.offset, RangeSize(ranges[c.rangeIdx]))
            else Position(ranges, c) == 0
  {
    hide RangeSize;
    StartIsZero(ranges);
    if 0 <= c.rangeIdx < |ranges| {
      assert Before(ranges, c.rangeIdx + 1) == Before(ranges, c.rangeIdx) + RangeSize(ranges[c.rangeIdx]);
    }
  }

  lemma NumberDeclared(range: CursorRange, k: nat, o: nat)
    requires o < RangeSize(range)
    ensures Declared(range, k)[o].rangeIdx == k && ToInt(Declared(range, k)[o].ip) == ToInt(range.start) + o
  {
    ToIntInverts(range.start);
    ToIntInverts(range.end);
    ToIpInverts(ToInt(range.start) + o);
    hide ToIp, ToInt;
    DeclaredAt(range, k, o);
  }

  /** The address a cursor points at: `offset` places behind the start of its range. */
  lemma CursorPointsAt(ranges: seq<CursorRange>, c: Cursor)
    requires Canonical(ranges, c)
    ensures Position(ranges, c) < |Space(ranges)|
    ensures var x := Space(ranges)[Position(ranges, c)];
            x.rangeIdx == c.rangeIdx && ToInt(x.ip) == ToInt(ranges[c.rangeIdx].start) + c.offset
  {
    hide RangeSize, ToInt, Declared;
    SpaceAt(ranges, c.rangeIdx, c.offset, |ranges|);
    NumberDeclared(ranges[c.rangeIdx], c.rangeIdx, c.offset);
  }

  // ---- a lap, chunk by chunk ----

  /** What a run of chunks probes before it closes a lap, and the cursor it leaves. */
  datatype Lap = Lap(probed: seq<Probe>, cursor: Cursor, complete: bool)

  /**
   * Chunks of at most `maxIps` addresses, of which the i-th consumes the first `consumed[i]`; the
   * sweep stops at the chunk that closes the lap.
   */
  ghost function Sweep(ranges: seq<CursorRange>, cursor: Cursor, maxIps: nat, consumed: seq<nat>): Lap
    decreases |consumed|
  {
    if consumed == [] then Lap([], cursor, false)
    else
      var plan := Planned(ranges, cursor, maxIps);
      var n := Min(consumed[0], |plan|);
      var step := Advance(ranges, cursor, n);
      if step.lapComplete then Lap(plan[..n], step.next, true)
      else
        var rest := Sweep(ranges, step.next, maxIps, consumed[1..]);
        Lap(plan[..n] + rest.probed, rest.cursor, rest.complete)
  }

  lemma SplitSlice<T>(s: seq<T>, i: nat, j: nat, k: nat)
    requires i <= j <= k <= |s|
    ensures s[i..j] + s[j..k] == s[i..k]
  {
  }

  /** How far into the declared space a sweep got. */
  ghost function Reached(ranges: seq<CursorRange>, lap: Lap): (end: nat)
    ensures end <= TotalDeclaredIps(ranges)
  {
    PositionInSpace(ranges, lap.cursor);
    if lap.complete then TotalDeclaredIps(ranges) else Position(ranges, lap.cursor)
  }

  /**
   * However the time budget cuts the chunks, a sweep probes the declared space in order from where it
   * starts: all of it when the lap closes, and up to the linear position of its cursor otherwise.
   */
  lemma {:induction false} SweepFollowsSpace(ranges: seq<CursorRange>, cursor: Cursor, maxIps: nat, consumed: seq<nat>)
    ensures var lap := Sweep(ranges, cursor, maxIps, consumed);
            && Position(ranges, cursor) <= Reached(ranges, lap) <= |Space(ranges)|
            && lap.probed == Space(ranges)[Position(ranges, cursor)..Reached(ranges, lap)]
            && (lap.complete ==> lap.cursor == CURSOR_START)
    decreases |consumed|
  {
    PositionInSpace(ranges, cursor);
    if consumed != [] {
      var p := Position(ranges, cursor);
      var n := Min(consumed[0], |Planned(ranges, cursor, maxIps)|);
      var step := Advance(ranges, cursor, n);
      PlanPrefix(ranges, cursor, maxIps, n);
      if !step.lapComplete {
        SweepFollowsSpace(ranges, step.next, maxIps, consumed[1..]);
        var rest := Sweep(ranges, step.next, maxIps, consumed[1..]);
        assert Position(ranges, step.next) == p + n;
        SplitSlice(Space(ranges), p, p + n, Reached(ranges, rest));
      }
    }
  }

  lemma PlanPrefix(ranges: seq<CursorRange>, cursor: Cursor, maxIps: int, n: nat)
    requires n <= |Planned(ranges, cursor, maxIps)|
    ensures var p := Position(ranges, cursor);
            p + n <= |Space(ranges)| && Planned(ranges, cursor, maxIps)[..n] == Space(ranges)[p..p + n]
  {
    PositionInSpace(ranges, cursor);
  }

  /** A lap closes exactly when what it probed, counted from the first range, is the whole space. */
  lemma SweepClosesAtTotal(ranges: seq<CursorRange>, maxIps: nat, consumed: seq<nat>)
    requires consumed != []
    ensures var lap := Sweep(ranges, CURSOR_START, maxIps, consumed);
            && (lap.complete <==> |lap.probed| == TotalDeclaredIps(ranges))
            && (lap.complete <==> lap.probed == Space(ranges))
  {
    var lap := Sweep(ranges, CURSOR_START, maxIps, consumed);
    StartIsZero(ranges);
    SweepFollowsSpace(ranges, CURSOR_START, maxIps, consumed);
    if lap.complete {
      assert Reached(ranges, lap) == |Space(ranges)|;
    } else {
      OpenLapIsShort(ranges, CURSOR_START, maxIps, consumed);
    }
  }

  lemma StartIsZero(ranges: seq<CursorRange>)
    ensures Position(ranges, CURSOR_START) == 0
  {
    if |ranges| > 0 {
      assert Before(ranges, 1) == RangeSize(ranges[0]);
    }
  }

  lemma {:induction false} OpenLapIsShort(ranges: seq<CursorRange>, cursor: Cursor, maxIps: nat, consumed: seq<nat>)
    requires consumed != []
    ensures var lap := Sweep(ranges, cursor, maxIps, consumed);
            !lap.complete ==> Position(ranges, lap.cursor) < TotalDeclaredIps(ranges)
    decreases |consumed|
  {
    var step := Advance(ranges, cursor, Min(consumed[0], |Planned(ranges, cursor, maxIps)|));
    if !step.lapComplete {
      PositionInSpace(ranges, step.next);
      if |consumed| > 1 {
        OpenLapIsShort(ranges, step.next, maxIps, consumed[1..]);
      }
    }
  }
}
