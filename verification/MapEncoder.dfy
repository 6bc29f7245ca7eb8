/** The chunk encoders: machines that hand out a map piece by piece. */
module MapEncoder {
  import opened Bytes
  import opened CompactSize
  import opened Bitcoin
  import opened Formats
  import opened Tables
  import opened Maps
  import opened MapEncoding

  /** The chunks a `KeyValueEncoder` hands out: both lengths ahead of their bodies. */
  function PairChunks(p: Pair): seq<bytes> {
    [Size(|KeyBody(p.key)|), Size(p.key.keyType), p.key.data, Size(|p.body|), p.body]
  }

  /** An `IterEncoder` over the pairs of one state. */
  function GroupChunks(ps: seq<Pair>): seq<bytes> {
    if ps == [] then [] else PairChunks(ps[0]) + GroupChunks(ps[1..])
  }

  lemma PairChunksJoin(p: Pair)
    ensures Join(PairChunks(p)) == Frame(p)
  {
    var c0 := PairChunks(p);
    var c1, c2, c3, c4 := c0[1..], c0[2..], c0[3..], c0[4..];
    assert c1[1..] == c2 && c2[1..] == c3 && c3[1..] == c4 && c4[1..] == c0[5..];
    assert Join(c4) == c4[0] + Join(c4[1..]) && p.body + [] == p.body;
    assert Join(c3) == Prefixed(p.body);
    assert Join(c2) == p.key.data + Prefixed(p.body);
    assert Join(c1) == KeyBody(p.key) + Prefixed(p.body);
  }

  lemma JoinHead(cs: seq<bytes>)
    requires cs != []
    ensures Join(cs) == cs[0] + Join(cs[1..])
  {
  }

  lemma {:induction false} GroupChunksJoin(ps: seq<Pair>)
    ensures Join(GroupChunks(ps)) == Frames(ps)
    ensures ps != [] ==> GroupChunks(ps) != [] && GroupChunks(ps)[0] != []
  {
    hide Frame;
    if ps != [] {
      GroupChunksJoin(ps[1..]);
      PairChunksJoin(ps[0]);
      JoinAppend(PairChunks(ps[0]), GroupChunks(ps[1..]));
    }
  }

  /** What the states from `i` on write, and the separator. */
  function RestBytes(groups: seq<seq<Pair>>, i: nat): bytes
    decreases |groups| - i
  {
    if i >= |groups| then [0] else Frames(groups[i]) + RestBytes(groups, i + 1)
  }

  /**
   * `InputMapEncoder` and its siblings. A state writes one field or one collection; the state after
   * the last is the separator. `skipped` says which states the transition function itself passes
   * over when they have nothing to write: the optional fields in version 2 (a collection may be
   * entered empty, and is hopped over on the way), all states in version 0.
   */
  class MapEncoder {
    const groups: seq<seq<Pair>>
    const skipped: seq<bool>
    var state: nat
    var chunks: seq<bytes>
    var finished: bool

    ghost predicate Valid()
      reads this
    {
      && |skipped| == |groups| && state <= |groups|
      && (chunks == [] <==> finished) && (finished ==> state == |groups|)
      && (chunks != [] ==> state == |groups| ==> chunks == [[0]])
    }

    /** Everything still to come, the current chunk included. */
    ghost function Remaining(): bytes
      reads this
    {
      Join(chunks) + (if state < |groups| then RestBytes(groups, state + 1) else [])
    }

    /** The next state with something to write or without a check of its own. */
    static function NextPresent(groups: seq<seq<Pair>>, skipped: seq<bool>, i: nat): (j: nat)
      requires |skipped| == |groups|
      ensures i <= |groups| ==> i <= j <= |groups|
      decreases |groups| - i
    {
      if i >= |groups| then |groups|
      else if skipped[i] && groups[i] == [] then NextPresent(groups, skipped, i + 1)
      else i
    }

    static lemma {:induction false} NothingSkipped(groups: seq<seq<Pair>>, skipped: seq<bool>, i: nat)
      requires |skipped| == |groups| && i <= |groups|
      ensures RestBytes(groups, NextPresent(groups, skipped, i)) == RestBytes(groups, i)
      decreases |groups| - i
    {
      hide Frame;
      if i < |groups| && skipped[i] && groups[i] == [] {
        NothingSkipped(groups, skipped, i + 1);
        assert Frames(groups[i]) == [];
      }
    }

    static function ChunksAt(groups: seq<seq<Pair>>, i: nat): seq<bytes> {
      if i < |groups| then GroupChunks(groups[i]) else [[0]]
    }

    static lemma ChunksAtJoin(groups: seq<seq<Pair>>, i: nat)
      requires i <= |groups|
      ensures Join(ChunksAt(groups, i)) + (if i < |groups| then RestBytes(groups, i + 1) else [])
           == RestBytes(groups, i)
      ensures ChunksAt(groups, i) != [] ==> ChunksAt(groups, i)[0] != []
    {
      if i < |groups| {
        GroupChunksJoin(groups[i]);
      } else {
        var one: seq<bytes> := [[0]];
        assert one[1..] == [] && Join(one) == one[0] + Join(one[1..]);
      }
    }

    /** Version 2 starts on its first, required field; version 0 on its first present one. */
    constructor (groups: seq<seq<Pair>>, skipped: seq<bool>)
      requires |skipped| == |groups|
      requires |groups| > 0 ==> groups[0] != [] || forall i | 0 <= i < |skipped| :: skipped[i]
      ensures Valid() && !finished && this.groups == groups && Remaining() == RestBytes(groups, 0)
    {
      var first := NextPresent(groups, skipped, 0);
      this.groups, this.skipped := groups, skipped;
      state, chunks, finished := first, ChunksAt(groups, first), false;
      new;
      hide NextPresent, ChunksAt, RestBytes, Join;
      PresentNotEmpty(groups, skipped, 0);
      NothingSkipped(groups, skipped, 0);
      ChunksAtJoin(groups, state);
      SeparatorChunk(groups);
    }

    static lemma {:induction false} PresentNotEmpty(groups: seq<seq<Pair>>, skipped: seq<bool>, i: nat)
      requires |skipped| == |groups| && i <= |groups|
      requires (i < |groups| && groups[i] != []) || forall j | 0 <= j < |skipped| :: skipped[j]
      ensures ChunksAt(groups, NextPresent(groups, skipped, i)) != []
      decreases |groups| - i
    {
      if i < |groups| && skipped[i] && groups[i] == [] {
        PresentNotEmpty(groups, skipped, i + 1);
      } else if i < |groups| {
        GroupChunksJoin(groups[i]);
      }
    }

    function CurrentChunk(): bytes
      reads this
    {
      if chunks == [] then [] else chunks[0]
    }

    /**
     * One advance drops the current chunk and nothing else, and the rank (states to go, then chunks
     * to go) goes strictly down, through every hop over an empty group.
     */
    method Advance() returns (done: bool)
      requires Valid() && !finished
      modifies this
      ensures Valid() && done == finished
      ensures old(CurrentChunk()) + Remaining() == old(Remaining())
      ensures done ==> Remaining() == []
      ensures !done ==> state > old(state) || (state == old(state) && |chunks| < |old(chunks)|)
    {
      hide RestBytes, Join;
      ghost var rest := if state < |groups| then RestBytes(groups, state + 1) else [];
      JoinHead(chunks);
      Concat(chunks[0], Join(chunks[1..]), rest);
      chunks := chunks[1..];
      done := false;
      if chunks == [] { done := Hop(); }
    }

    /** Past the end of a state: on to the next that has anything to write, over any that have not. */
    method Hop() returns (done: bool)
      requires chunks == [] && !finished && |skipped| == |groups| && state <= |groups|
      modifies this
      ensures Valid() && done == finished && Remaining() == old(Remaining())
      ensures done ==> Remaining() == []
      ensures !done ==> state > old(state)
    {
      hide RestBytes, ChunksAt;
      ghost var todo := Remaining();
      while chunks == [] && state < |groups|
        invariant old(state) <= state <= |groups| && !finished
        invariant Remaining() == todo
        invariant chunks != [] ==> state > old(state) && (state == |groups| ==> chunks == [[0]])
        invariant state > old(state) && state == |groups| ==> chunks != []
        decreases |groups| - state
      {
        Passed(state);
        state := NextPresent(groups, skipped, state + 1);
        chunks := ChunksAt(groups, state);
        SeparatorChunk(groups);
      }
      finished := chunks == [];
      done := finished;
    }

    static lemma SeparatorChunk(groups: seq<seq<Pair>>)
      ensures ChunksAt(groups, |groups|) == [[0]]
    {
    }

    /** Nothing is lost between the end of one state and the start of the next. */
    lemma Passed(i: nat)
      requires i < |groups| && |skipped| == |groups|
      ensures var j := NextPresent(groups, skipped, i + 1);
        && i < j <= |groups|
        && Join(ChunksAt(groups, j)) + (if j < |groups| then RestBytes(groups, j + 1) else [])
           == Join([]) + RestBytes(groups, i + 1)
    {
      hide RestBytes, ChunksAt;
      NothingSkipped(groups, skipped, i + 1);
      ChunksAtJoin(groups, NextPresent(groups, skipped, i + 1));
      assert Join([]) + RestBytes(groups, i + 1) == RestBytes(groups, i + 1);
    }

    /** Draining the machine yields the plain concatenation of the present fields, then one separator. */
    method Drain() returns (out: bytes)
      requires Valid() && !finished
      modifies this
      ensures out == old(Remaining()) && finished
    {
      out := [];
      var done := false;
      while !done
        invariant Valid() && done == finished
        invariant out + Remaining() == old(Remaining())
        invariant done ==> Remaining() == []
        decreases !done, |groups| - state, |chunks|
      {
        var chunk := CurrentChunk();
        ghost var todo := Remaining();
        done := Advance();
        Concat(out, chunk, Remaining());
        out := out + chunk;
      }
      assert out + [] == out;
    }
  }

  ghost function StateGroups(table: Table, r: Record, states: seq<Group>): (groups: seq<seq<Pair>>)
    ensures |groups| == |states|
  {
    seq(|states|, i requires 0 <= i < |states| => GroupPairs(table, r, states[i]))
  }

  lemma {:induction false} StatesFromHere(table: Table, r: Record, states: seq<Group>, i: nat)
    requires i <= |states|
    ensures RestBytes(StateGroups(table, r, states), i) == StatesBytes(table, r, states[i..]) + [0]
    decreases |states| - i
  {
    hide GroupPairs, Frames;
    if i < |states| {
      StatesFromHere(table, r, states, i + 1);
      assert states[i..][1..] == states[i + 1..];
      Concat(Frames(GroupPairs(table, r, states[i])), StatesBytes(table, r, states[i + 1..]), [0]);
    } else {
      assert StatesBytes(table, r, states[i..]) + [0] == [0];
    }
  }

  /** What the states of a map hand out in order is the map's encoding. */
  lemma MachineWritesMap(table: Table, r: Record)
    ensures RestBytes(StateGroups(table, r, Order(table)), 0) == EncodeMap(table, r)
  {
    hide Order, GroupPairs;
    StatesFromHere(table, r, Order(table), 0);
    assert Order(table)[0..] == Order(table);
  }

  /** A map encoder fed the fields of a record by its iterators, drained. */
  method EncodeRecord(table: Table, ghost r: Record, groups: seq<seq<Pair>>, skipped: seq<bool>) returns (out: bytes)
    requires groups == StateGroups(table, r, Order(table)) && |skipped| == |groups|
    requires groups[0] != [] || forall i | 0 <= i < |skipped| :: skipped[i]
    ensures out == EncodeMap(table, r)
  {
    hide Order, EncodeMap;
    var encoder := new MapEncoder(groups, skipped);
    MachineWritesMap(table, r);
    out := encoder.Drain();
  }

  /**
   * `ExactLenEncoder`: a length announced up front, counted down chunk by chunk. The subtraction
   * saturates, so a wrong announcement would go unnoticed; a right one stays right to the end.
   */
  class ExactLenEncoder {
    var chunks: seq<bytes>
    var remaining: nat

    constructor (chunks: seq<bytes>, len: nat)
      ensures this.chunks == chunks && remaining == len
    {
      this.chunks, remaining := chunks, len;
    }

    method Advance() returns (done: bool)
      requires chunks != []
      modifies this
      ensures chunks == old(chunks)[1..] && (done <==> chunks == [])
      ensures old(remaining) == |Join(old(chunks))| ==> remaining == |Join(chunks)|
      ensures old(remaining) > |Join(old(chunks))| ==> remaining == old(remaining) - |old(chunks)[0]|
    {
      var n := |chunks[0]|;
      chunks := chunks[1..];
      remaining := if n <= remaining then remaining - n else 0;
      done := chunks == [];
    }

    /** An announced length that is right at the first chunk is right to the last. */
    method DrainExact() returns (out: bytes)
      modifies this
      ensures out == Join(old(chunks)) && chunks == []
      ensures old(remaining) == |Join(old(chunks))| ==> remaining == 0
    {
      out := [];
      while chunks != []
        invariant out + Join(chunks) == Join(old(chunks))
        invariant old(remaining) == |Join(old(chunks))| ==> remaining == |Join(chunks)|
        decreases |chunks|
      {
        Concat(out, chunks[0], Join(chunks[1..]));
        out := out + chunks[0];
        var done := Advance();
      }
      assert out + [] == out;
    }
  }

  /* ----- a tap tree, leaf by leaf ----- */

  /** `VarInt::size`. */
  function VarIntSize(n: nat): nat { if n < 0xFD then 1 else if n <= 0xFFFF then 3 else if n < U32 then 5 else 9 }

  /** The length `TapTreeEncoder` announces before it has yielded anything. */
  function AnnouncedLength(leaves: seq<TapLeaf>): nat {
    if leaves == [] then 0
    else |leaves[0].script| + VarIntSize(|leaves[0].script|) + 1 + 1 + AnnouncedLength(leaves[1..])
  }

  function TreeChunks(leaves: seq<TapLeaf>): seq<bytes> {
    if leaves == [] then []
    else
      var leaf := leaves[0];
      [[leaf.depth], [leaf.version], Size(|leaf.script|), leaf.script] + TreeChunks(leaves[1..])
  }

  /** The chunks of a tap tree are its bytes, and exactly as many as announced. */
  lemma {:induction false} TreeAnnounced(leaves: seq<TapLeaf>)
    ensures Join(TreeChunks(leaves)) == TreeBytes(leaves) && |TreeBytes(leaves)| == AnnouncedLength(leaves)
  {
    if leaves != [] {
      var leaf := leaves[0];
      TreeAnnounced(leaves[1..]);
      var first := [[leaf.depth], [leaf.version], Size(|leaf.script|), leaf.script];
      JoinAppend(first, TreeChunks(leaves[1..]));
      FourJoin([leaf.depth], [leaf.version], Size(|leaf.script|), leaf.script);
      assert [leaf.depth] + [leaf.version] == [leaf.depth, leaf.version];
    }
  }

  lemma FourJoin(a: bytes, b: bytes, c: bytes, d: bytes)
    ensures Join([a, b, c, d]) == a + b + c + d
  {
    JoinHead([a, b, c, d]);
    JoinHead([b, c, d]);
    JoinHead([c, d]);
    JoinHead([d]);
    assert [a, b, c, d][1..] == [b, c, d] && [b, c, d][1..] == [c, d] && [c, d][1..] == [d] && [d][1..] == [];
    assert d + [] == d;
    Concat(a, b, c + d);
    Concat(a + b, c, d);
    assert a + (b + (c + d)) == a + b + (c + d);
  }

  method EncodeTree(leaves: seq<TapLeaf>) returns (out: bytes)
    ensures out == TreeBytes(leaves)
  {
    TreeAnnounced(leaves);
    var encoder := new ExactLenEncoder(TreeChunks(leaves), AnnouncedLength(leaves));
    out := encoder.DrainExact();
    assert encoder.remaining == 0;
  }
}
