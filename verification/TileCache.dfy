/** A least-recently-used cache of hashes, kept as two maps that must agree
    (examples/tile-recurrence.rs).
 */
module TileCaches {

  type Hash = nat

  /** A use of a hash and the stamp it was made at. */
  datatype Use = Use(stamp: nat, hash: Hash)
  {
    /** The order a set of them is kept in: by stamp, then by hash. */
    predicate AtMost(other: Use) {
      stamp < other.stamp || (stamp == other.stamp && hash <= other.hash)
    }
  }

  predicate Distinct(s: seq<Hash>) {
    forall i, j :: 0 <= i < j < |s| ==> s[i] != s[j]
  }

  function Without(s: seq<Hash>, h: Hash): seq<Hash> {
    if s == [] then []
    else Without(s[..|s| - 1], h) + (if s[|s| - 1] == h then [] else [s[|s| - 1]])
  }

  function LastOf(s: seq<Hash>, n: nat): seq<Hash> {
    if |s| > n then s[|s| - n..] else s
  }

  /** The hashes held, least recent first, once one is touched. */
  function Touched(order: seq<Hash>, slots: nat, h: Hash): seq<Hash> {
    if h in order then Without(order, h) + [h]
    else if |order| >= slots then (order + [h])[1..]
    else order + [h]
  }

  /** Both maps say the one order: each hash with the stamp of its last use, later the later
      it is in the order; and there are no more than there is room for. */
  ghost predicate Agree(order: seq<Hash>, byHash: map<Hash, nat>, byUse: set<Use>, stamp: nat) {
    && (forall h :: h in order <==> h in byHash)
    && (forall i, j :: 0 <= i < j < |order| ==> byHash[order[i]] < byHash[order[j]])
    && (forall h :: h in byHash ==> byHash[h] <= stamp)
    && (forall u :: u in byUse <==> u.hash in byHash && byHash[u.hash] == u.stamp)
  }

  class Lru {
    const slots: nat
    var stamp: nat
    var byHash: map<Hash, nat>
    var byUse: set<Use>
    /** The hashes held, least recent first. */
    ghost var order: seq<Hash>
    /** Every hash touched since the cache was last cleared. */
    ghost var history: seq<Hash>

    ghost predicate Valid()
      reads this
    {
      && Agree(order, byHash, byUse, stamp) && |order| <= slots
      && order == HeldAfter(history, slots)
    }

    constructor (slots: nat)
      ensures Valid() && history == [] && this.slots == slots
    {
      this.slots := slots;
      stamp, byHash, byUse, order, history := 0, map[], {}, [], [];
    }

    method Clear()
      requires Valid()
      modifies `byHash, `byUse, `order, `history
      ensures Valid() && history == []
    {
      byHash, byUse, order, history := map[], {}, [], [];
    }

    /** Uses a hash: it ends up the last to go, and the answer is whether it was there. */
    method Touch(hash: Hash) returns (hit: bool)
      requires Valid()
      modifies `stamp, `byHash, `byUse, `order, `history
      ensures Valid() && history == old(history) + [hash]
      ensures hit <==> hash in old(history) && |Since(old(history), hash)| < slots
      ensures |byHash| == |byUse| == |order| <= slots
    {
      hide Agree, HeldAfter, Since, Touched;
      HitWhenRecent(history, slots, hash);
      OneMoreHeld(history, slots, hash);
      hit := MakeMostRecent(hash);
      history := history + [hash];
    }

    /** The maps' part of a touch. */
    method MakeMostRecent(hash: Hash) returns (hit: bool)
      requires Agree(order, byHash, byUse, stamp) && |order| <= slots
      modifies `stamp, `byHash, `byUse, `order
      ensures Agree(order, byHash, byUse, stamp) && order == Touched(old(order), slots, hash)
      ensures hit == (hash in old(order))
      ensures |byHash| == |byUse| == |order| <= slots
    {
      hide Agree;
      stamp := stamp + 1;
      InBoth(order, byHash, byUse, stamp - 1, hash);
      if hash in byHash {
        var earlier := byHash[hash];
        HitAgrees(order, byHash, byUse, stamp, hash);
        byHash := byHash[hash := stamp];
        byUse := byUse - {Use(earlier, hash)} + {Use(stamp, hash)};
        order := Without(order, hash) + [hash];
        SizesAgree(order, byHash, byUse, stamp);
        return true;
      }
      MissAgrees(order, byHash, byUse, stamp, hash);
      byHash := byHash[hash := stamp];
      byUse := byUse + {Use(stamp, hash)};
      order := order + [hash];
      SizesAgree(order, byHash, byUse, stamp);
      if |byHash| > slots {
        DropOldest();
      }
      return false;
    }

    /** The least recent given up. */
    method DropOldest()
      requires Agree(order, byHash, byUse, stamp) && order != []
      modifies `byHash, `byUse, `order
      ensures Agree(order, byHash, byUse, stamp) && order == old(order)[1..]
      ensures |byHash| == |byUse| == |order|
    {
      hide Agree;
      LeastIsFirst(order, byHash, byUse, stamp);
      var oldest :| oldest in byUse && forall u :: u in byUse ==> oldest.AtMost(u);
      DropAgrees(order, byHash, byUse, stamp, oldest);
      byUse := byUse - {oldest};
      byHash := byHash - {oldest.hash};
      order := order[1..];
      SizesAgree(order, byHash, byUse, stamp);
    }
  }

  // ----- the two maps

  lemma DistinctEnd(s: seq<Hash>, h: Hash)
    ensures Distinct(s + [h]) <==> Distinct(s) && h !in s
  {
    var more := s + [h];
    assert forall i :: 0 <= i < |s| ==> more[i] == s[i];
    if Distinct(more) {
      forall i | 0 <= i < |s| ensures s[i] != h {
        assert more[i] != more[|s|];
      }
    }
  }

  lemma {:induction false} WithoutMembers(s: seq<Hash>, h: Hash)
    ensures forall g :: g in Without(s, h) <==> g in s && g != h
    ensures h !in s ==> Without(s, h) == s
  {
    if s == [] {
    } else {
      var front, last := s[..|s| - 1], s[|s| - 1];
      WithoutMembers(front, h);
      assert front + [last] == s;
      assert forall g :: g in s <==> g in front || g == last;
    }
  }

  lemma {:induction false} WithoutDistinct(s: seq<Hash>, h: Hash)
    requires Distinct(s)
    ensures Distinct(Without(s, h)) && |Without(s, h)| == |s| - (if h in s then 1 else 0)
  {
    if s == [] {
    } else {
      var front, last := s[..|s| - 1], s[|s| - 1];
      assert front + [last] == s;
      DistinctEnd(front, last);
      hide Distinct;
      WithoutDistinct(front, h);
      WithoutMembers(front, h);
      assert h in s <==> h in front || h == last;
      if last != h {
        DistinctEnd(Without(front, h), last);
      }
    }
  }

  predicate Rising(s: seq<Hash>, at: map<Hash, nat>) {
    && (forall i :: 0 <= i < |s| ==> s[i] in at)
    && forall i, j :: 0 <= i < j < |s| ==> at[s[i]] < at[s[j]]
  }

  lemma RisingFront(s: seq<Hash>, at: map<Hash, nat>)
    requires Rising(s, at) && s != []
    ensures Rising(s[..|s| - 1], at) && s[|s| - 1] in at
    ensures forall g :: g in s[..|s| - 1] ==> g in at && at[g] < at[s[|s| - 1]]
  {}

  lemma RisingMore(s: seq<Hash>, h: Hash, at: map<Hash, nat>)
    requires Rising(s, at) && h in at && forall g :: g in s ==> g in at && at[g] < at[h]
    ensures Rising(s + [h], at)
  {}

  lemma {:induction false} WithoutRises(s: seq<Hash>, h: Hash, at: map<Hash, nat>)
    requires Rising(s, at)
    ensures Rising(Without(s, h), at)
  {
    if s == [] {
    } else {
      var front, last := s[..|s| - 1], s[|s| - 1];
      RisingFront(s, at);
      hide Rising;
      WithoutRises(front, h, at);
      WithoutMembers(front, h);
      if last != h {
        RisingMore(Without(front, h), last, at);
      }
    }
  }

  lemma InBoth(order: seq<Hash>, byHash: map<Hash, nat>, byUse: set<Use>, stamp: nat, hash: Hash)
    requires Agree(order, byHash, byUse, stamp)
    ensures hash in order <==> hash in byHash
  {}

  /** The hashes of an order, and their stamps, once one of them is touched. */
  lemma HitMoves(order: seq<Hash>, at: map<Hash, nat>, stamp: nat, hash: Hash)
    requires Rising(order, at) && hash in at
    requires forall h :: h in order <==> h in at
    requires forall h :: h in at ==> at[h] < stamp
    ensures Rising(Without(order, hash) + [hash], at[hash := stamp])
    ensures forall h :: h in Without(order, hash) + [hash] <==> h in at
  {
    var rest := Without(order, hash);
    WithoutRises(order, hash, at);
    WithoutMembers(order, hash);
    forall i | 0 <= i < |rest| ensures rest[i] in at && rest[i] != hash {
      assert rest[i] in rest;
    }
    hide Without;
    forall h ensures h in rest + [hash] <==> h in at {
      assert h in rest + [hash] <==> h in rest || h == hash;
    }
  }

  lemma HitAgrees(order: seq<Hash>, byHash: map<Hash, nat>, byUse: set<Use>, stamp: nat, hash: Hash)
    requires stamp > 0 && Agree(order, byHash, byUse, stamp - 1) && hash in byHash
    ensures Agree(Without(order, hash) + [hash], byHash[hash := stamp],
                  byUse - {Use(byHash[hash], hash)} + {Use(stamp, hash)}, stamp)
    ensures |Without(order, hash) + [hash]| == |order|
  {
    AgreeRises(order, byHash, byUse, stamp - 1);
    WithoutDistinct(order, hash);
    HitMoves(order, byHash, stamp, hash);
    UsesMove(byHash, byUse, stamp, hash);
    hide Without, Distinct;
  }

  lemma UsesMove(byHash: map<Hash, nat>, byUse: set<Use>, stamp: nat, hash: Hash)
    requires hash in byHash
    requires forall u :: u in byUse <==> u.hash in byHash && byHash[u.hash] == u.stamp
    ensures forall u :: u in byUse - {Use(byHash[hash], hash)} + {Use(stamp, hash)}
              <==> u.hash in byHash[hash := stamp] && byHash[hash := stamp][u.hash] == u.stamp
  {}

  lemma AgreeRises(order: seq<Hash>, byHash: map<Hash, nat>, byUse: set<Use>, stamp: nat)
    requires Agree(order, byHash, byUse, stamp)
    ensures Rising(order, byHash) && Distinct(order)
  {
    assert forall i :: 0 <= i < |order| ==> order[i] in order;
  }

  lemma MissAgrees(order: seq<Hash>, byHash: map<Hash, nat>, byUse: set<Use>, stamp: nat, hash: Hash)
    requires stamp > 0 && Agree(order, byHash, byUse, stamp - 1) && hash !in byHash
    ensures Agree(order + [hash], byHash[hash := stamp], byUse + {Use(stamp, hash)}, stamp)
  {
    var all, later := order + [hash], byHash[hash := stamp];
    forall i, j | 0 <= i < j < |all| ensures later[all[i]] < later[all[j]] {
      assert all[i] == order[i] && order[i] in order;
      if j < |order| {
        assert order[j] in order;
      }
    }
  }

  /** The least use there is is the first hash's. */
  lemma LeastIsFirst(order: seq<Hash>, byHash: map<Hash, nat>, byUse: set<Use>, stamp: nat)
    requires Agree(order, byHash, byUse, stamp) && order != []
    ensures exists u :: u in byUse && forall v :: v in byUse ==> u.AtMost(v)
    ensures forall u :: u in byUse && (forall v :: v in byUse ==> u.AtMost(v)) ==> u.hash == order[0]
  {
    assert order[0] in order;
    var first := Use(byHash[order[0]], order[0]);
    assert first in byUse;
    forall v | v in byUse ensures first.AtMost(v) && (v.hash != order[0] ==> !v.AtMost(first)) {
      assert v.hash in order;
      var i :| 0 <= i < |order| && order[i] == v.hash;
    }
  }

  /** Hashes with rising stamps are different. */
  lemma FirstIsGone(order: seq<Hash>, byHash: map<Hash, nat>, byUse: set<Use>, stamp: nat, h: Hash)
    requires Agree(order, byHash, byUse, stamp) && order != []
    ensures h in order[1..] <==> h in byHash && h != order[0]
  {
    assert order == [order[0]] + order[1..];
    assert h in order <==> h == order[0] || h in order[1..];
    if h in order[1..] {
      var i :| 0 <= i < |order[1..]| && order[1..][i] == h;
      assert order[i + 1] == h && byHash[order[0]] < byHash[order[i + 1]];
    }
  }

  lemma DropAgrees(order: seq<Hash>, byHash: map<Hash, nat>, byUse: set<Use>, stamp: nat, oldest: Use)
    requires Agree(order, byHash, byUse, stamp) && order != []
    requires oldest in byUse && oldest.hash == order[0]
    ensures Agree(order[1..], byHash - {oldest.hash}, byUse - {oldest}, stamp)
  {
    var (rest, fewer) := (order[1..], byHash - {oldest.hash});
    forall h ensures h in rest <==> h in fewer {
      FirstIsGone(order, byHash, byUse, stamp, h);
    }
    forall i, j | 0 <= i < j < |rest| ensures rest[i] in fewer && rest[j] in fewer && fewer[rest[i]] < fewer[rest[j]] {
      assert rest[i] == order[i + 1] && rest[j] == order[j + 1];
      assert rest[i] in rest && rest[j] in rest;
    }
    forall u ensures u in byUse - {oldest} <==> u.hash in fewer && fewer[u.hash] == u.stamp {
      assert u.hash == oldest.hash && u in byUse ==> u == oldest;
    }
  }

  lemma {:induction false} SizeOfDistinct(s: seq<Hash>, hashes: set<Hash>)
    requires Distinct(s) && forall h :: h in s <==> h in hashes
    ensures |s| == |hashes|
  {
    if s == [] {
      assert hashes == {};
    } else {
      var front, last := s[..|s| - 1], s[|s| - 1];
      assert front + [last] == s;
      forall h ensures h in front <==> h in hashes - {last} {
        assert h in s <==> h in front || h == last;
      }
      SizeOfDistinct(front, hashes - {last});
    }
  }

  lemma {:induction false} SizeOfUses(byHash: map<Hash, nat>, byUse: set<Use>)
    requires forall u :: u in byUse <==> u.hash in byHash && byHash[u.hash] == u.stamp
    ensures |byUse| == |byHash|
    decreases byHash.Keys
  {
    if byHash.Keys == {} {
      assert byUse == {};
      assert |byHash| == |byHash.Keys|;
    } else {
      var h :| h in byHash;
      var u := Use(byHash[h], h);
      assert u in byUse;
      assert (byHash - {h}).Keys == byHash.Keys - {h};
      SizeOfUses(byHash - {h}, byUse - {u});
      assert |byHash| == |byHash.Keys| && |byHash - {h}| == |(byHash - {h}).Keys|;
    }
  }

  lemma SizesAgree(order: seq<Hash>, byHash: map<Hash, nat>, byUse: set<Use>, stamp: nat)
    requires Agree(order, byHash, byUse, stamp)
    ensures |order| == |byHash| == |byUse|
  {
    SizeOfDistinct(order, byHash.Keys);
    assert |byHash| == |byHash.Keys|;
    SizeOfUses(byHash, byUse);
  }

  // ----- what the cache holds

  /** The distinct hashes touched, by when each was last, the latest last. */
  function Recency(history: seq<Hash>): seq<Hash> {
    if history == [] then []
    else
      var last := history[|history| - 1];
      Without(Recency(history[..|history| - 1]), last) + [last]
  }

  /** The hashes a cache of so many slots holds once a history of them is touched. */
  function HeldAfter(history: seq<Hash>, slots: nat): seq<Hash> {
    if history == [] then []
    else Touched(HeldAfter(history[..|history| - 1], slots), slots, history[|history| - 1])
  }

  lemma {:induction false} RecencyMembers(history: seq<Hash>)
    ensures Distinct(Recency(history))
    ensures forall h :: h in Recency(history) <==> h in history
  {
    if history == [] {
    } else {
      var front, last := history[..|history| - 1], history[|history| - 1];
      RecencyMembers(front);
      hide Distinct;
      WithoutMembers(Recency(front), last);
      WithoutDistinct(Recency(front), last);
      DistinctEnd(Without(Recency(front), last), last);
      assert front + [last] == history;
      assert forall h :: h in history <==> h in front || h == last;
      assert forall h :: h in Recency(history) <==> h in Without(Recency(front), last) || h == last;
    }
  }

  lemma {:induction false} WithoutSum(a: seq<Hash>, b: seq<Hash>, h: Hash)
    ensures Without(a + b, h) == Without(a, h) + Without(b, h)
    decreases |b|
  {
    if b == [] {
      assert a + b == a;
    } else {
      assert (a + b)[..|a + b| - 1] == a + b[..|b| - 1];
      WithoutSum(a, b[..|b| - 1], h);
    }
  }

  /** One touch of a cache that holds the last of a recency is one touch of the recency. */
  lemma TouchedIsLast(recency: seq<Hash>, slots: nat, h: Hash)
    requires Distinct(recency)
    ensures Touched(LastOf(recency, slots), slots, h) == LastOf(Without(recency, h) + [h], slots)
  {
    var held := LastOf(recency, slots);
    var gone := recency[..|recency| - |held|];
    assert recency == gone + held && (gone == [] || |held| == slots) && |held| <= slots;
    hide LastOf;
    WithoutSum(gone, held, h);
    if h in held {
      HitIsLast(gone, held, slots, h);
    } else {
      MissIsLast(gone, held, slots, h);
    }
  }

  lemma HitIsLast(gone: seq<Hash>, held: seq<Hash>, slots: nat, h: Hash)
    requires Distinct(gone + held) && (gone == [] || |held| == slots) && |held| <= slots && h in held
    ensures LastOf(Without(gone, h) + Without(held, h) + [h], slots) == Without(held, h) + [h]
  {
    HashOnce(gone, held, h);
    WithoutDistinct(held, h);
    WithoutMembers(gone, h);
    LastOfSum(gone, Without(held, h) + [h], slots);
    hide Distinct, Without, LastOf;
    assert Without(gone, h) + Without(held, h) + [h] == gone + (Without(held, h) + [h]);
  }

  lemma MissIsLast(gone: seq<Hash>, held: seq<Hash>, slots: nat, h: Hash)
    requires (gone == [] || |held| == slots) && |held| <= slots && h !in held
    ensures LastOf(Without(gone, h) + Without(held, h) + [h], slots)
         == if |held| >= slots then (held + [h])[1..] else held + [h]
  {
    WithoutMembers(held, h);
    WithoutMembers([], h);
    var w := Without(gone, h);
    hide Without;
    assert w + held + [h] == w + (held + [h]);
    LastOfLonger(w, held + [h], slots);
  }

  lemma LastOfLonger(a: seq<Hash>, b: seq<Hash>, n: nat)
    ensures |b| == n + 1 ==> LastOf(a + b, n) == b[1..]
    ensures a == [] && |b| <= n ==> LastOf(a + b, n) == b
  {}

  /** The last of a sum is its second part, where that is as many, or there is no first. */
  lemma LastOfSum(a: seq<Hash>, b: seq<Hash>, n: nat)
    requires |b| == n || (a == [] && |b| <= n)
    ensures LastOf(a + b, n) == b
  {}

  lemma HashOnce(a: seq<Hash>, b: seq<Hash>, h: Hash)
    requires Distinct(a + b) && h in b
    ensures h !in a && Distinct(a) && Distinct(b)
  {
    assert forall i :: 0 <= i < |a| ==> (a + b)[i] == a[i];
    assert forall i :: 0 <= i < |b| ==> (a + b)[|a| + i] == b[i];
  }

  lemma OneMoreHeld(history: seq<Hash>, slots: nat, h: Hash)
    ensures HeldAfter(history + [h], slots) == Touched(HeldAfter(history, slots), slots, h)
  {
    assert (history + [h])[..|history|] == history;
  }

  /** The cache holds the last `slots` distinct hashes touched, in the order of their last
      touches. */
  lemma {:induction false} HoldsTheLastDistinct(history: seq<Hash>, slots: nat)
    ensures HeldAfter(history, slots) == LastOf(Recency(history), slots)
  {
    if history == [] {
    } else {
      var front, last := history[..|history| - 1], history[|history| - 1];
      HoldsTheLastDistinct(front, slots);
      RecencyMembers(front);
      TouchedIsLast(Recency(front), slots, last);
    }
  }

  /** The distinct hashes touched since a hash last was. */
  function Since(history: seq<Hash>, h: Hash): set<Hash> {
    if history == [] || history[|history| - 1] == h then {}
    else Since(history[..|history| - 1], h) + {history[|history| - 1]}
  }

  /** Where a hash is once another's earlier place is given up: what was behind it still is. */
  lemma WithoutAround(before: seq<Hash>, h: Hash, behind: seq<Hash>, other: Hash)
    requires other != h
    ensures Without(before + [h] + behind, other) == Without(before, other) + [h] + Without(behind, other)
  {
    WithoutSum(before + [h], behind, other);
    WithoutSum(before, [h], other);
    assert [h][..0] == [] && Without([], other) == [];
    assert Without([h], other) == [h];
  }

  /** In the recency, behind a hash come exactly those touched since it was. */
  lemma {:induction false} RecencyBehind(history: seq<Hash>, h: Hash) returns (before: seq<Hash>, behind: seq<Hash>)
    requires h in history
    ensures Recency(history) == before + [h] + behind
    ensures forall g :: g in behind <==> g in Since(history, h)
  {
    var front, last := history[..|history| - 1], history[|history| - 1];
    if last == h {
      before, behind := Without(Recency(front), h), [];
    } else {
      assert front + [last] == history;
      var ahead, after := RecencyBehind(front, h);
      WithoutMembers(after, last);
      WithoutAround(ahead, h, after, last);
      hide Without;
      before, behind := Without(ahead, last), Without(after, last) + [last];
    }
  }

  /** A touch is a hit exactly when the hash was touched before, and fewer distinct others
      have been since than there are slots. */
  lemma HitWhenRecent(history: seq<Hash>, slots: nat, h: Hash)
    ensures h in HeldAfter(history, slots) <==> h in history && |Since(history, h)| < slots
  {
    HoldsTheLastDistinct(history, slots);
    RecencyMembers(history);
    var r := Recency(history);
    hide Recency, Since, HeldAfter, Distinct;
    if h in history {
      var before, behind := RecencyBehind(history, h);
      var k := |before|;
      assert r[k + 1..] == behind && r[k] == h;
      DistinctTail(r, k + 1);
      SizeOfDistinct(r[k + 1..], Since(history, h));
      AmongTheLast(r, k, slots);
    } else {
      assert forall g :: g in LastOf(r, slots) ==> g in r;
    }
  }

  /** Of distinct hashes the `k`-th is among the last so many just when fewer are behind it. */
  lemma AmongTheLast(r: seq<Hash>, k: nat, n: nat)
    requires Distinct(r) && k < |r|
    ensures r[k] in LastOf(r, n) <==> |r| - k - 1 < n
  {
    var held := LastOf(r, n);
    var from := |r| - |held|;
    assert forall i :: 0 <= i < |held| ==> held[i] == r[from + i];
    if k >= from {
      assert held[k - from] == r[k];
    }
  }

  lemma DistinctTail(s: seq<Hash>, k: nat)
    requires Distinct(s) && k <= |s|
    ensures Distinct(s[k..])
  {}
}
