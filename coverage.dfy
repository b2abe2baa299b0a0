/**
 * Coverage of the pairing pass: every tap-on and tap-off of the input ends up in
 * exactly one trip, and a tap of any other kind in none. The accounting is done with
 * multisets, so a tap that occurs twice in the input must occur twice in the trips.
 */
module Coverage {
  import opened TapModel
  import opened TripBuilders
  import opened Matching

  /** The taps a trip was made from. */
  function TapsOfOne(r: Resolution): seq<Tap> {
    match r
    case Paired(on, off) => [on, off]
    case OrphanOn(on) => [on]
    case OrphanOff(off) => [off]
  }

  /** The taps the trips were made from, trip by trip. */
  function TapsOf(rs: seq<Resolution>): seq<Tap> {
    if rs == [] then [] else TapsOfOne(rs[0]) + TapsOf(rs[1..])
  }

  /** The number of trips made from a pair. */
  function NumPaired(rs: seq<Resolution>): (n: nat)
    ensures n <= |rs|
  {
    if rs == [] then 0 else (if rs[0].Paired? then 1 else 0) + NumPaired(rs[1..])
  }

  /** The taps of a recognised kind, in input order. */
  function Recognized(taps: seq<Tap>): (r: seq<Tap>)
    ensures forall t :: t in r ==> t in taps && t.kind != Other
    ensures forall t :: t in taps && t.kind != Other ==> t in r
    decreases |taps|
  {
    if taps == [] then []
    else
      var init := Recognized(taps[..|taps| - 1]);
      var last := taps[|taps| - 1];
      assert taps == taps[..|taps| - 1] + [last];
      if last.kind == Other then init else init + [last]
  }

  ghost function PickKey(pool: Pool): (k: string)
    requires pool != map[]
    ensures k in pool
  {
    var k :| k in pool; k
  }

  /** All pooled taps, over every card. */
  ghost function PoolTaps(pool: Pool): multiset<Tap>
    decreases pool.Keys
  {
    if pool == map[] then multiset{}
    else
      var k := PickKey(pool);
      multiset(pool[k]) + PoolTaps(pool - {k})
  }

  /** The taps held by a state: those already in trips and those still pooled. */
  ghost function Covered(p: Pools): multiset<Tap> {
    multiset(TapsOf(p.resolved)) + PoolTaps(p.onPool) + PoolTaps(p.offPool)
  }

  /** `PoolTaps` may take out any card first. */
  lemma {:induction false} PoolTapsAt(pool: Pool, k: string)
    requires k in pool
    ensures PoolTaps(pool) == multiset(pool[k]) + PoolTaps(pool - {k})
    decreases pool.Keys
  {
    var k' := PickKey(pool);
    if k' != k {
      var rest := pool - {k'};
      PoolTapsAt(rest, k);
      PoolTapsAt(pool - {k}, k');
      assert rest - {k} == (pool - {k}) - {k'};
    }
  }

  lemma PoolTapsUpdate(pool: Pool, k: string, v: seq<Tap>)
    ensures PoolTaps(pool[k := v]) + multiset(Lookup(pool, k)) == PoolTaps(pool) + multiset(v)
  {
    var q := pool[k := v];
    PoolTapsAt(q, k);
    if k in pool {
      PoolTapsAt(pool, k);
      assert q - {k} == pool - {k};
    } else {
      assert q - {k} == pool;
    }
  }

  lemma TapsOfCons(r: Resolution, rs: seq<Resolution>)
    ensures TapsOf([r] + rs) == TapsOfOne(r) + TapsOf(rs)
  {
    assert ([r] + rs)[1..] == rs;
  }

  lemma {:induction false} TapsOfConcat(a: seq<Resolution>, b: seq<Resolution>)
    ensures TapsOf(a + b) == TapsOf(a) + TapsOf(b)
  {
    if a == [] {
      assert a + b == b;
    } else {
      var t := a[1..];
      assert a == [a[0]] + t;
      assert a + b == [a[0]] + (t + b);
      TapsOfConcat(t, b);
      TapsOfCons(a[0], t + b);
      TapsOfCons(a[0], t);
    }
  }

  lemma TapsOfSnoc(rs: seq<Resolution>, r: Resolution)
    ensures TapsOf(rs + [r]) == TapsOf(rs) + TapsOfOne(r)
  {
    TapsOfConcat(rs, [r]);
    assert TapsOf([r]) == TapsOfOne(r) + TapsOf([]);
  }

  /** Taking `t` out of one pool and putting it with `tap` into a trip keeps the balance. */
  lemma PairBalance(done: multiset<Tap>, kept: multiset<Tap>, left: multiset<Tap>, was: multiset<Tap>, t: Tap, tap: Tap)
    requires left + multiset{t} == was
    ensures (done + multiset{tap, t}) + kept + left == (done + kept + was) + multiset{tap}
  {
  }

  lemma PairBalanceOff(done: multiset<Tap>, kept: multiset<Tap>, left: multiset<Tap>, was: multiset<Tap>, t: Tap, tap: Tap)
    requires left + multiset{t} == was
    ensures (done + multiset{t, tap}) + left + kept == (done + was + kept) + multiset{tap}
  {
  }

  lemma CancelRemoved(now: multiset<Tap>, was: multiset<Tap>, rest: multiset<Tap>, t: Tap)
    requires now + (rest + multiset{t}) == was + rest
    ensures now + multiset{t} == was
  {
    assert forall x :: (now + multiset{t})[x] == was[x] by {
      forall x ensures (now + multiset{t})[x] == was[x] {
        assert (now + (rest + multiset{t}))[x] == (was + rest)[x];
      }
    }
  }

  lemma CancelAdded(now: multiset<Tap>, was: multiset<Tap>, before: multiset<Tap>, t: Tap)
    requires now + before == was + (before + multiset{t})
    ensures now == was + multiset{t}
  {
    assert forall x :: now[x] == (was + multiset{t})[x] by {
      forall x ensures now[x] == (was + multiset{t})[x] {
        assert (now + before)[x] == (was + (before + multiset{t}))[x];
      }
    }
  }

  lemma AfterTapOnCoverage(p: Pools, tapOn: Tap)
    ensures Covered(AfterTapOn(p, tapOn)) == Covered(p) + multiset{tapOn}
  {
    var pan := tapOn.pan;
    var offs := Lookup(p.offPool, pan);
    var q := AfterTapOn(p, tapOn);
    match FindMatchingTapOff(offs, pan, tapOn.time)
    case Some(i) =>
      MatchedTapOffRemoval(offs, pan, tapOn.time, i);
      var rest := offs[..i] + offs[i + 1..];
      var newOff := p.offPool[pan := rest];
      assert q == Pools(p.onPool, newOff, p.resolved + [Paired(tapOn, offs[i])]);
      assert offs == rest[..i] + [offs[i]] + rest[i..];
      assert multiset(offs) == multiset(rest) + multiset{offs[i]};
      PoolTapsUpdate(p.offPool, pan, rest);
      CancelRemoved(PoolTaps(newOff), PoolTaps(p.offPool), multiset(rest), offs[i]);
      TapsOfSnoc(p.resolved, Paired(tapOn, offs[i]));
      assert multiset(TapsOf(q.resolved)) == multiset(TapsOf(p.resolved)) + multiset{tapOn, offs[i]};
      PairBalance(multiset(TapsOf(p.resolved)), PoolTaps(p.onPool), PoolTaps(newOff), PoolTaps(p.offPool), offs[i], tapOn);
    case None =>
      var ons := Lookup(p.onPool, pan);
      var newOn := p.onPool[pan := ons + [tapOn]];
      assert q == Pools(newOn, p.offPool, p.resolved);
      PoolTapsUpdate(p.onPool, pan, ons + [tapOn]);
      assert multiset(ons + [tapOn]) == multiset(ons) + multiset{tapOn};
      CancelAdded(PoolTaps(newOn), PoolTaps(p.onPool), multiset(ons), tapOn);
  }

  lemma AfterTapOffCoverage(p: Pools, tapOff: Tap)
    ensures Covered(AfterTapOff(p, tapOff)) == Covered(p) + multiset{tapOff}
  {
    var pan := tapOff.pan;
    var ons := Lookup(p.onPool, pan);
    var q := AfterTapOff(p, tapOff);
    match FindMatchingTapOn(ons, pan, tapOff.time)
    case Some(i) =>
      MatchedTapOnRemoval(ons, pan, tapOff.time, i);
      var rest := ons[..i] + ons[i + 1..];
      var newOn := p.onPool[pan := rest];
      assert q == Pools(newOn, p.offPool, p.resolved + [Paired(ons[i], tapOff)]);
      assert ons == rest[..i] + [ons[i]] + rest[i..];
      assert multiset(ons) == multiset(rest) + multiset{ons[i]};
      PoolTapsUpdate(p.onPool, pan, rest);
      CancelRemoved(PoolTaps(newOn), PoolTaps(p.onPool), multiset(rest), ons[i]);
      TapsOfSnoc(p.resolved, Paired(ons[i], tapOff));
      assert multiset(TapsOf(q.resolved)) == multiset(TapsOf(p.resolved)) + multiset{ons[i], tapOff};
      PairBalanceOff(multiset(TapsOf(p.resolved)), PoolTaps(p.offPool), PoolTaps(newOn), PoolTaps(p.onPool), ons[i], tapOff);
    case None =>
      var offs := Lookup(p.offPool, pan);
      var newOff := p.offPool[pan := offs + [tapOff]];
      assert q == Pools(p.onPool, newOff, p.resolved);
      PoolTapsUpdate(p.offPool, pan, offs + [tapOff]);
      assert multiset(offs + [tapOff]) == multiset(offs) + multiset{tapOff};
      CancelAdded(PoolTaps(newOff), PoolTaps(p.offPool), multiset(offs), tapOff);
  }

  /** The pass holds every recognised tap it has seen exactly once, pooled or in a trip. */
  lemma {:induction false} AfterTapsCoverage(taps: seq<Tap>)
    ensures Covered(AfterTaps(Start, taps)) == multiset(Recognized(taps))
    decreases |taps|
  {
    if taps != [] {
      var init := taps[..|taps| - 1];
      var last := taps[|taps| - 1];
      AfterTapsCoverage(init);
      var p := AfterTaps(Start, init);
      match last.kind
      case On => AfterTapOnCoverage(p, last);
      case Off => AfterTapOffCoverage(p, last);
      case Other =>
    }
  }

  lemma {:induction false} TapsOfOrphans(s: seq<Tap>)
    ensures TapsOf(AsOrphanOns(s)) == s
    ensures TapsOf(AsOrphanOffs(s)) == s
  {
    if s != [] {
      TapsOfOrphans(s[1..]);
      assert AsOrphanOns(s)[1..] == AsOrphanOns(s[1..]);
      assert AsOrphanOffs(s)[1..] == AsOrphanOffs(s[1..]);
      assert s == [s[0]] + s[1..];
    }
  }

  lemma Regroup(a: multiset<Tap>, b: multiset<Tap>, c: multiset<Tap>, d: multiset<Tap>)
    requires d == b + c
    ensures (a + b) + c == a + d
  {
  }

  lemma ElemsSnoc(order: seq<string>)
    requires order != []
    ensures Elems(order) == Elems(order[..|order| - 1]) + {order[|order| - 1]}
  {
    assert order == order[..|order| - 1] + [order[|order| - 1]];
  }

  lemma LastNotEarlier(order: seq<string>)
    requires order != []
    requires forall i, j :: 0 <= i < j < |order| ==> order[i] != order[j]
    ensures order[|order| - 1] !in Elems(order[..|order| - 1])
  {
    var init := order[..|order| - 1];
    forall j | 0 <= j < |init| ensures init[j] != order[|order| - 1] {
      assert init[j] == order[j];
    }
  }

  lemma MinusStep(pool: Pool, e: set<string>, k: string)
    ensures (pool - e) - {k} == pool - (e + {k})
  {
  }

  lemma FlattenSnoc(order: seq<string>, pool: Pool)
    requires order != []
    ensures multiset(Flatten(order, pool)) ==
              multiset(Flatten(order[..|order| - 1], pool)) + multiset(Lookup(pool, order[|order| - 1]))
  {
  }

  /** Walking some distinct cards takes out exactly their pooled taps. */
  lemma {:induction false} FlattenTakesOut(order: seq<string>, pool: Pool)
    requires forall i, j :: 0 <= i < j < |order| ==> order[i] != order[j]
    requires forall i :: 0 <= i < |order| ==> order[i] in pool
    ensures multiset(Flatten(order, pool)) + PoolTaps(pool - Elems(order)) == PoolTaps(pool)
    decreases |order|
  {
    if order == [] {
      assert pool - Elems(order) == pool;
    } else {
      var init := order[..|order| - 1];
      var k := order[|order| - 1];
      FlattenTakesOut(init, pool);
      var left := pool - Elems(init);
      LastNotEarlier(order);
      assert k in left;
      PoolTapsAt(left, k);
      ElemsSnoc(order);
      MinusStep(pool, Elems(init), k);
      FlattenSnoc(order, pool);
      assert left[k] == Lookup(pool, k);
      Regroup(multiset(Flatten(init, pool)), multiset(left[k]), PoolTaps(left - {k}), PoolTaps(left));
    }
  }

  /** Walking the cards in any iteration order yields every pooled tap once. */
  lemma FlattenEnumeration(order: seq<string>, pool: Pool)
    requires IsEnumeration(order, pool.Keys)
    ensures multiset(Flatten(order, pool)) == PoolTaps(pool)
  {
    FlattenTakesOut(order, pool);
    assert pool - Elems(order) == map[];
  }

  /**
   * Coverage of a whole call: the trips are made from exactly the tap-ons and tap-offs
   * of the input, each used once, whatever order the pools are walked in.
   */
  lemma OutcomeCoverage(taps: seq<Tap>, onOrder: seq<string>, offOrder: seq<string>)
    requires IsEnumeration(onOrder, AfterTaps(Start, taps).onPool.Keys)
    requires IsEnumeration(offOrder, AfterTaps(Start, taps).offPool.Keys)
    ensures multiset(TapsOf(Outcome(taps, onOrder, offOrder))) == multiset(Recognized(taps))
  {
    var p := AfterTaps(Start, taps);
    var ons := AsOrphanOns(Flatten(onOrder, p.onPool));
    var offs := AsOrphanOffs(Flatten(offOrder, p.offPool));
    AfterTapsCoverage(taps);
    FlattenEnumeration(onOrder, p.onPool);
    FlattenEnumeration(offOrder, p.offPool);
    TapsOfOrphans(Flatten(onOrder, p.onPool));
    TapsOfOrphans(Flatten(offOrder, p.offPool));
    TapsOfConcat(p.resolved, ons);
    TapsOfConcat(p.resolved + ons, offs);
  }

  lemma {:induction false} TapsOfSize(rs: seq<Resolution>)
    ensures |TapsOf(rs)| == |rs| + NumPaired(rs)
  {
    if rs != [] {
      TapsOfSize(rs[1..]);
    }
  }

  lemma CountFromCoverage(rs: seq<Resolution>, recognized: seq<Tap>)
    requires multiset(TapsOf(rs)) == multiset(recognized)
    ensures |rs| == |recognized| - NumPaired(rs)
  {
    TapsOfSize(rs);
    assert |multiset(TapsOf(rs))| == |TapsOf(rs)|;
    assert |multiset(recognized)| == |recognized|;
  }

  /** The number of trips is the number of tap-ons and tap-offs, less one per pair. */
  lemma TripCount(taps: seq<Tap>, onOrder: seq<string>, offOrder: seq<string>)
    requires IsEnumeration(onOrder, AfterTaps(Start, taps).onPool.Keys)
    requires IsEnumeration(offOrder, AfterTaps(Start, taps).offPool.Keys)
    ensures |Outcome(taps, onOrder, offOrder)| == |Recognized(taps)| - NumPaired(Outcome(taps, onOrder, offOrder))
  {
    var o := Outcome(taps, onOrder, offOrder);
    OutcomeCoverage(taps, onOrder, offOrder);
    CountFromCoverage(o, Recognized(taps));
  }
}
