/** Putting the fragments of one encrypted frame together (crates/obby-client/src/e2ee.rs:436-484). */
module Fragments {
  import opened Wrappers
  import opened Integers
  import Sdp

  datatype Frag = Frag(id: string, i: u32, n: u32, ct: bytes)

  /** One id, one total that is their number, and every index below it exactly once. */
  predicate Complete(fs: seq<Frag>) {
    && 0 < |fs| <= U32_MAX
    && (forall k | 0 <= k < |fs| :: fs[k].id == fs[0].id && fs[k].n == |fs| && fs[k].i < |fs|)
    && forall a, b | 0 <= a < b < |fs| :: fs[a].i != fs[b].i
  }

  /** The pieces in index order. */
  predicate Places(fs: seq<Frag>, pieces: seq<bytes>) {
    |pieces| == |fs| && forall k | 0 <= k < |fs| :: fs[k].i < |pieces| && pieces[fs[k].i] == fs[k].ct
  }

  /** The first fragments belong together, each in a slot of its own. */
  predicate Slotted(fs: seq<Frag>, k: nat, slots: seq<Option<bytes>>)
    requires 0 < |fs| && k <= |fs|
  {
    && |slots| == |fs|
    && (forall j | 0 <= j < k :: fs[j].id == fs[0].id && fs[j].n == |fs| && fs[j].i < |fs|)
    && (forall a, b | 0 <= a < b < k :: fs[a].i != fs[b].i)
    && (forall j | 0 <= j < k :: slots[fs[j].i] == Some(fs[j].ct))
    && forall i | 0 <= i < |slots| && slots[i].Some? :: IndexUsed(fs, k, i)
  }

  predicate IndexUsed(fs: seq<Frag>, k: nat, i: nat)
    requires k <= |fs|
  {
    exists j | 0 <= j < k :: fs[j].i == i
  }

  lemma SlotTaken(fs: seq<Frag>, k: nat, slots: seq<Option<bytes>>)
    requires 0 < |fs| && k < |fs| && Slotted(fs, k, slots) && fs[k].i < |fs| && slots[fs[k].i].Some?
    ensures !Complete(fs)
  {
    assert IndexUsed(fs, k, fs[k].i);
  }

  lemma OneMoreSlot(fs: seq<Frag>, k: nat, slots: seq<Option<bytes>>)
    requires 0 < |fs| && k < |fs| && Slotted(fs, k, slots)
    requires fs[k].id == fs[0].id && fs[k].n == |fs| && fs[k].i < |fs| && slots[fs[k].i].None?
    ensures Slotted(fs, k + 1, slots[fs[k].i := Some(fs[k].ct)])
  {
    var more := slots[fs[k].i := Some(fs[k].ct)];
    forall i | 0 <= i < |more| && more[i].Some? ensures IndexUsed(fs, k + 1, i) {
      if i == fs[k].i {
        assert fs[k].i == i;
      } else {
        assert IndexUsed(fs, k, i);
      }
    }
  }

  function Indices(fs: seq<Frag>): set<nat> {
    set f | f in fs :: f.i as nat
  }

  lemma {:induction false} DistinctIndices(fs: seq<Frag>)
    requires forall a, b | 0 <= a < b < |fs| :: fs[a].i != fs[b].i
    ensures |Indices(fs)| == |fs|
  {
    if fs != [] {
      var front, last := fs[..|fs| - 1], fs[|fs| - 1];
      DistinctIndices(front);
      assert fs == front + [last];
      assert Indices(fs) == Indices(front) + {last.i as nat};
    }
  }

  /** As many distinct indices as slots leave no slot empty. */
  lemma NoSlotIsEmpty(fs: seq<Frag>, slots: seq<Option<bytes>>)
    requires 0 < |fs| && Slotted(fs, |fs|, slots)
    ensures forall i | 0 <= i < |slots| :: slots[i].Some?
  {
    DistinctIndices(fs);
    Sdp.NumbersBelow(Indices(fs), |fs|);
    forall i | 0 <= i < |slots| ensures slots[i].Some? {
      assert i in Indices(fs);
    }
  }

  /** Fill a slot for each fragment and join the slots: this succeeds exactly for complete sets. */
  method Reassemble(fs: seq<Frag>) returns (r: Option<bytes>)
    ensures r.Some? <==> Complete(fs)
    ensures r.Some? ==> exists pieces :: Places(fs, pieces) && r.value == Sdp.Flatten(pieces)
  {
    if fs == [] {
      return None;
    }
    var id, total := fs[0].id, fs[0].n;
    if |fs| > U32_MAX || |fs| != total {
      return None;
    }
    var slots: seq<Option<bytes>> := seq(|fs|, _ => None);
    for k := 0 to |fs|
      invariant Slotted(fs, k, slots)
    {
      var f := fs[k];
      if f.id != id || f.n != total || f.i >= |fs| {
        return None;
      }
      if slots[f.i].Some? {
        SlotTaken(fs, k, slots);
        return None;
      }
      OneMoreSlot(fs, k, slots);
      slots := slots[f.i := Some(f.ct)];
    }
    NoSlotIsEmpty(fs, slots);
    var out := JoinSlots(slots);
    return Some(out);
  }

  function Contents(slots: seq<Option<bytes>>): (pieces: seq<bytes>)
    requires forall i | 0 <= i < |slots| :: slots[i].Some?
    ensures |pieces| == |slots| && forall i | 0 <= i < |slots| :: Some(pieces[i]) == slots[i]
  {
    seq(|slots|, i requires 0 <= i < |slots| => slots[i].value)
  }

  method JoinSlots(slots: seq<Option<bytes>>) returns (out: bytes)
    requires forall i | 0 <= i < |slots| :: slots[i].Some?
    ensures out == Sdp.Flatten(Contents(slots))
  {
    out := [];
    ghost var pieces := Contents(slots);
    for i := 0 to |slots|
      invariant out == Sdp.Flatten(pieces[..i])
    {
      assert pieces[..i + 1] == pieces[..i] + [pieces[i]];
      Sdp.FlattenOneMore(pieces[..i], pieces[i]);
      out := out + slots[i].value;
    }
    assert pieces[..|slots|] == pieces;
  }

  /** The fragments of a payload cut into these pieces. */
  function Fragmented(id: string, pieces: seq<bytes>): seq<Frag>
    requires |pieces| <= U32_MAX
  {
    seq(|pieces|, i requires 0 <= i < |pieces| => Frag(id, i, |pieces|, pieces[i]))
  }

  /** In any order, the fragments of a payload form a complete set, and no other pieces fit their places. */
  lemma AnyOrderOfTheFragments(id: string, pieces: seq<bytes>, fs: seq<Frag>)
    requires 0 < |pieces| <= U32_MAX && multiset(fs) == multiset(Fragmented(id, pieces))
    ensures Complete(fs) && Places(fs, pieces)
    ensures forall others :: Places(fs, others) ==> others == pieces
  {
    var all := Fragmented(id, pieces);
    assert |multiset(fs)| == |fs| && |multiset(all)| == |all|;
    forall k | 0 <= k < |fs| ensures fs[k] in all {
      assert fs[k] in multiset(fs);
    }
    forall a, b | 0 <= a < b < |fs| ensures fs[a].i != fs[b].i {
      if fs[a].i == fs[b].i {
        OnceEach(id, pieces, fs[a]);
        Twice(fs, a, b);
      }
    }
    forall others | Places(fs, others) ensures others == pieces {
      forall i | 0 <= i < |pieces| ensures others[i] == pieces[i] {
        assert all[i] in multiset(fs);
        var k :| 0 <= k < |fs| && fs[k] == all[i];
      }
    }
  }

  lemma OnceEach(id: string, pieces: seq<bytes>, f: Frag)
    requires |pieces| <= U32_MAX && f in Fragmented(id, pieces)
    ensures multiset(Fragmented(id, pieces))[f] == 1
  {
    var all := Fragmented(id, pieces);
    var i := f.i;
    assert all == all[..i] + [all[i]] + all[i + 1..] && all[i] == f;
    assert f !in all[..i] && f !in all[i + 1..];
    assert multiset(all) == multiset(all[..i]) + multiset([f]) + multiset(all[i + 1..]);
  }

  lemma Twice(fs: seq<Frag>, a: nat, b: nat)
    requires a < b < |fs| && fs[a] == fs[b]
    ensures multiset(fs)[fs[a]] >= 2
  {
    assert fs == fs[..b] + [fs[b]] + fs[b + 1..];
    assert multiset(fs) == multiset(fs[..b]) + multiset([fs[b]]) + multiset(fs[b + 1..]);
    assert fs[..b][a] == fs[b] && fs[b] in multiset(fs[..b]);
  }
}
