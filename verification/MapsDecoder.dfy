/** The push decoder of a fixed number of maps, one after the other. */
module MapsDecoder {
  import opened Bytes
  import opened CompactSize
  import opened Formats
  import opened ValueDecoders
  import opened Tables
  import opened Maps
  import opened MapDecoder
  import opened Psbt

  function Prepend<V>(items: seq<V>, k: nat, o: Outcome<seq<V>>): Outcome<seq<V>> {
    match o
    case Ready(vs, m) => Ready(items + vs, k + m)
    case _ => o
  }

  /** Having read `items` out of `base`, what is left to read are the other items. */
  ghost predicate FollowsMany<V>(parse: bytes -> Outcome<V>, n: nat, base: bytes, items: seq<V>) {
    |items| <= n
    && forall x {:trigger ParseMany(parse, n - |items|, x)} ::
         ParseMany(parse, n, base + x) == Prepend(items, |base|, ParseMany(parse, n - |items|, x))
  }

  lemma FollowsAt<V>(parse: bytes -> Outcome<V>, n: nat, base: bytes, items: seq<V>, x: bytes)
    requires FollowsMany(parse, n, base, items)
    ensures ParseMany(parse, n, base + x) == Prepend(items, |base|, ParseMany(parse, n - |items|, x))
  {
    hide ParseMany;
  }

  lemma FollowsNone<V>(parse: bytes -> Outcome<V>, n: nat)
    ensures FollowsMany(parse, n, [], [])
  {
    hide ParseMany;
    forall x: bytes ensures ParseMany(parse, n, [] + x) == Prepend([], 0, ParseMany(parse, n, x)) {
      assert [] + x == x;
      if ParseMany(parse, n, x).Ready? { assert [] + ParseMany(parse, n, x).value == ParseMany(parse, n, x).value; }
    }
  }

  lemma FollowsOne<V>(parse: bytes -> Outcome<V>, n: nat, base: bytes, items: seq<V>, q: bytes, v: V)
    requires FollowsMany(parse, n, base, items) && |items| < n
    requires forall x :: parse(q + x) == Ready(v, |q|)
    ensures FollowsMany(parse, n, base + q, items + [v])
  {
    var m := n - |items|;
    forall x: bytes
      ensures ParseMany(parse, n, base + q + x) == Prepend(items + [v], |base + q|, ParseMany(parse, m - 1, x))
    {
      Concat(base, q, x);
      assert (q + x)[|q|..] == x && parse(q + x) == Ready(v, |q|);
      FollowsAt(parse, n, base, items, q + x);
      if ParseMany(parse, m - 1, x).Ready? {
        var vs := ParseMany(parse, m - 1, x).value;
        assert items + ([v] + vs) == items + [v] + vs;
      }
    }
  }

  lemma FollowsRecord<V>(table: Table, build: Record -> V, parse: bytes -> Outcome<V>, n: nat, base: bytes, items: seq<V>,
                         q: bytes, r: Record)
    requires FollowsMany(parse, n, base, items) && |items| < n
    requires forall b :: parse(b) == ParseRecord(table, build, b)
    requires ParseMap(table, map[], q) == Ready(r, |q|)
    ensures FollowsMany(parse, n, base + q, items + [build(r)])
  {
    hide ParseMap, FollowsMany;
    forall x: bytes ensures parse(q + x) == Ready(build(r), |q|) { MapSettled(table, map[], q, x); }
    FollowsOne(parse, n, base, items, q, build(r));
  }

  /** `ExactVecDecoderWith`: one map decoder after the other. */
  class MapsDecoder<V> {
    const table: Table
    const build: Record -> V
    const parse: bytes -> Outcome<V>
    const count: nat
    var items: seq<V>
    var current: MapDecoder
    ghost var base: bytes
    ghost var seen: bytes

    ghost function Repr(): set<object>
      reads this, current
    {
      {this} + current.Repr()
    }

    ghost predicate Valid()
      reads this, current, current.Repr()
    {
      && (forall b :: parse(b) == ParseRecord(table, build, b))
      && FollowsMany(parse, count, base, items) && |items| <= count
      && this !in current.Repr()
      && (if |items| == count then seen == base
          else current.Valid() && !current.Done() && current.table == table && seen == base + current.seen)
    }

    ghost predicate Done()
      reads this
    {
      |items| == count
    }

    constructor (table: Table, build: Record -> V, parse: bytes -> Outcome<V>, count: nat)
      requires forall b :: parse(b) == ParseRecord(table, build, b)
      ensures Valid() && seen == [] && fresh(Repr())
      ensures this.parse == parse && this.count == count && Done() == (count == 0)
    {
      hide ParseRecord;
      this.table, this.build, this.parse, this.count := table, build, parse, count;
      items, base, seen := [], [], [];
      current := new MapDecoder(table);
      new;
      FollowsNone(parse, count);
    }

    lemma Verdict()
      requires Valid()
      ensures Done() ==> ParseMany(parse, count, seen) == Ready(items, |seen|)
      ensures !Done() ==> ParseMany(parse, count, seen) == More
    {
      hide ParseMap;
      if Done() {
        assert base + [] == base && items + [] == items;
        FollowsAt(parse, count, base, items, []);
      } else {
        current.Verdict();
        FollowsAt(parse, count, base, items, current.seen);
      }
    }

    lemma VerdictFailed(q: bytes, e: Error)
      requires FollowsMany(parse, count, base, items) && |items| < count
      requires forall b :: parse(b) == ParseRecord(table, build, b)
      requires ParseMap(table, map[], q) == Fail(e)
      ensures ParseMany(parse, count, base + q) == Fail(e)
    {
      hide ParseMap;
      FollowsAt(parse, count, base, items, q);
    }

    /** The current map is complete: keep it, and start on the next. */
    method Next()
      requires FollowsMany(parse, count, base, items) && |items| < count
      requires forall b :: parse(b) == ParseRecord(table, build, b)
      requires current.Valid() && current.Done() && current.table == table && seen == base + current.seen
      requires this !in current.Repr()
      modifies this
      ensures Valid() && seen == old(seen) && |items| == old(|items|) + 1 && fresh(current.Repr())
      ensures |items| <= count
    {
      hide ParseMap, FollowsMany, ParseMany, ParseRecord, MapDecoder.Valid;
      current.DoneVerdict();
      var r := current.stage.record;
      FollowsRecord(table, build, parse, count, base, items, current.seen, r);
      items, base := items + [build(r)], base + current.seen;
      current := new MapDecoder(table);
      assert base + [] == base;
    }

    method PushBytes(b: bytes) returns (used: nat, status: Status)
      requires Valid()
      modifies Repr()
      ensures used <= |b| && seen == old(seen) + b[..used]
      ensures fresh(Repr() - old(Repr()))
      ensures status.NeedsMore? ==> used == |b| && Valid() && !Done() && ParseMany(parse, count, seen) == More
      ensures status.Finished? ==> Valid() && Done()
      ensures status.Failed? ==> ParseMany(parse, count, seen) == Fail(status.error)
    {
      hide ParseMap, ParseMany, FollowsMany, ParseRecord, MapDecoder.Valid, MapDecoder.Done;
      used := 0;
      assert b[..0] == [];
      while |items| < count
        invariant used <= |b| && seen == old(seen) + b[..used]
        invariant Valid() && fresh(Repr() - old(Repr()))
        decreases count - |items|
      {
        ghost var before := current.seen;
        var k, s := current.PushBytes(b[used..]);
        Concat(base, before, b[used..][..k]);
        Concat(old(seen), b[..used], b[used..][..k]);
        assert b[..used] + b[used..][..k] == b[..used + k];
        seen := base + current.seen;
        used := used + k;
        if s.NeedsMore? {
          Verdict();
          return used, NeedsMore;
        }
        if s.Failed? {
          VerdictFailed(current.seen, s.error);
          return used, s;
        }
        Next();
      }
      status := Finished;
    }
  }

  /* ----- the pieces of a stream ----- */

  lemma JoinSplit(chunks: seq<bytes>, i: nat)
    requires i < |chunks|
    ensures Join(chunks) == Join(chunks[..i]) + (chunks[i] + Join(chunks[i + 1..]))
  {
    assert chunks == chunks[..i] + chunks[i..] && chunks[i..][1..] == chunks[i + 1..];
    JoinAppend(chunks[..i], chunks[i..]);
  }

  lemma JoinPrefix(chunks: seq<bytes>, i: nat)
    requires i < |chunks|
    ensures Join(chunks[..i + 1]) == Join(chunks[..i]) + chunks[i]
  {
    assert chunks[..i + 1] == chunks[..i] + [chunks[i]];
    JoinAppend(chunks[..i], [chunks[i]]);
    var one := [chunks[i]];
    assert one[1..] == [] && Join(one) == chunks[i] + Join(one[1..]);
    assert chunks[i] + [] == chunks[i];
  }
}
