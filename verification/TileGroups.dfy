/** Moving tiles grouped by a flood fill, the groups that are too small left out
    (examples/tile-recurrence.rs).
 */
module TileGroups {
  import opened Rects

  /** A tile by its column and row. */
  datatype Tile = Tile(c: u16, r: u16)

  /** The fewest moving tiles a group needs to be a stream's. */
  const MIN_STREAM_CELLS: nat := 5

  /** The four beside a tile, in `u16` arithmetic that wraps at both ends. */
  function Beside(t: Tile): (ts: seq<Tile>)
    ensures |ts| == 4
  {
    [Tile((t.c - 1) % 0x1_0000, t.r), Tile((t.c + 1) % 0x1_0000, t.r),
     Tile(t.c, (t.r - 1) % 0x1_0000), Tile(t.c, (t.r + 1) % 0x1_0000)]
  }

  predicate Adjacent(a: Tile, b: Tile) {
    b in Beside(a)
  }

  lemma StepAndBack(i: u16)
    ensures ((i - 1) % 0x1_0000 + 1) % 0x1_0000 == i
    ensures ((i + 1) % 0x1_0000 - 1) % 0x1_0000 == i
  {}

  lemma AdjacentBothWays(a: Tile, b: Tile)
    requires Adjacent(a, b)
    ensures Adjacent(b, a)
  {
    var (ts, back) := (Beside(a), Beside(b));
    StepAndBack(a.c);
    StepAndBack(a.r);
    var k :| 0 <= k < 4 && ts[k] == b;
    var l := if k == 0 then 1 else if k == 1 then 0 else if k == 2 then 3 else 2;
    assert back[l] == a;
  }

  /** On a picture of at most 65535 pixels a side, so of at most 1024 tiles, the wrapping is
      never met: beside is one column or one row away. */
  lemma BesideOnAPicture(a: Tile, b: Tile)
    requires a.c < 1024 && a.r < 1024 && b.c < 1024 && b.r < 1024
    ensures Adjacent(a, b) <==>
            (a.r == b.r && (a.c == b.c + 1 || b.c == a.c + 1)) || (a.c == b.c && (a.r == b.r + 1 || b.r == a.r + 1))
  {
    var ts := Beside(a);
    assert a.c > 0 ==> ts[0] == Tile(a.c - 1, a.r);
    assert a.c == 0 ==> ts[0].c == 0xFFFF;
    assert ts[1] == Tile(a.c + 1, a.r);
    assert a.r > 0 ==> ts[2] == Tile(a.c, a.r - 1);
    assert a.r == 0 ==> ts[2].r == 0xFFFF;
    assert ts[3] == Tile(a.c, a.r + 1);
  }

  /** A walk from tile to tile beside it, all of them moving. */
  predicate IsWalk(moving: set<Tile>, walk: seq<Tile>) {
    && walk != []
    && (forall i :: 0 <= i < |walk| ==> walk[i] in moving)
    && forall i :: 0 <= i < |walk| - 1 ==> Adjacent(walk[i], walk[i + 1])
  }

  ghost predicate Reaches(moving: set<Tile>, a: Tile, b: Tile) {
    exists walk: seq<Tile> :: IsWalk(moving, walk) && walk[0] == a && walk[|walk| - 1] == b
  }

  /** The 4-connected group of a tile. */
  ghost function Group(moving: set<Tile>, t: Tile): set<Tile> {
    set u | u in moving && Reaches(moving, t, u)
  }

  /** The tiles a stream carries, whatever order they are looked at in. */
  ghost function InLargeGroups(moving: set<Tile>): set<Tile> {
    set t | t in moving && |Group(moving, t)| >= MIN_STREAM_CELLS
  }

  lemma ReachesItself(moving: set<Tile>, a: Tile)
    requires a in moving
    ensures Reaches(moving, a, a)
  {
    assert IsWalk(moving, [a]);
  }

  lemma ReachesFurther(moving: set<Tile>, a: Tile, b: Tile, c: Tile)
    requires Reaches(moving, a, b) && Adjacent(b, c) && c in moving
    ensures Reaches(moving, a, c)
  {
    var walk :| IsWalk(moving, walk) && walk[0] == a && walk[|walk| - 1] == b;
    assert IsWalk(moving, walk + [c]);
  }

  lemma {:induction false} ReachesOn(moving: set<Tile>, a: Tile, walk: seq<Tile>)
    requires IsWalk(moving, walk) && Reaches(moving, a, walk[0])
    ensures Reaches(moving, a, walk[|walk| - 1])
    decreases |walk|
  {
    if |walk| == 1 {
    } else {
      ReachesFurther(moving, a, walk[0], walk[1]);
      assert IsWalk(moving, walk[1..]);
      ReachesOn(moving, a, walk[1..]);
    }
  }

  lemma {:induction false} ReachesBack(moving: set<Tile>, walk: seq<Tile>)
    requires IsWalk(moving, walk)
    ensures Reaches(moving, walk[|walk| - 1], walk[0])
    decreases |walk|
  {
    if |walk| == 1 {
      ReachesItself(moving, walk[0]);
    } else {
      assert IsWalk(moving, walk[1..]);
      ReachesBack(moving, walk[1..]);
      AdjacentBothWays(walk[0], walk[1]);
      ReachesFurther(moving, walk[|walk| - 1], walk[1], walk[0]);
    }
  }

  /** Tiles of one group have the one group. */
  lemma SameGroup(moving: set<Tile>, a: Tile, b: Tile)
    requires Reaches(moving, a, b)
    ensures Group(moving, a) == Group(moving, b)
  {
    var walk :| IsWalk(moving, walk) && walk[0] == a && walk[|walk| - 1] == b;
    ReachesBack(moving, walk);
    forall u | u in moving ensures Reaches(moving, a, u) <==> Reaches(moving, b, u) {
      if Reaches(moving, a, u) {
        var on :| IsWalk(moving, on) && on[0] == a && on[|on| - 1] == u;
        ReachesOn(moving, b, on);
      }
      if Reaches(moving, b, u) {
        var on :| IsWalk(moving, on) && on[0] == b && on[|on| - 1] == u;
        ReachesOn(moving, a, on);
      }
    }
  }

  /** No tile of the set has a moving one beside it outside. */
  predicate Closed(moving: set<Tile>, tiles: set<Tile>) {
    forall a, b :: a in tiles && b in moving && Adjacent(a, b) ==> b in tiles
  }

  lemma {:induction false} ClosedHolds(moving: set<Tile>, tiles: set<Tile>, walk: seq<Tile>)
    requires Closed(moving, tiles) && IsWalk(moving, walk) && walk[0] in tiles
    ensures walk[|walk| - 1] in tiles
    decreases |walk|
  {
    if |walk| == 1 {
    } else {
      assert Adjacent(walk[0], walk[1]);
      assert IsWalk(moving, walk[1..]);
      ClosedHolds(moving, tiles, walk[1..]);
    }
  }

  /** A closed set every tile of which is reached from one of them is that one's group. */
  lemma ClosedIsGroup(moving: set<Tile>, tiles: set<Tile>, start: Tile)
    requires Closed(moving, tiles) && tiles <= moving && start in tiles
    requires forall t :: t in tiles ==> Reaches(moving, start, t)
    ensures tiles == Group(moving, start)
    ensures forall t :: t in tiles ==> Group(moving, t) == tiles
  {
    forall u | u in moving && Reaches(moving, start, u) ensures u in tiles {
      var walk :| IsWalk(moving, walk) && walk[0] == start && walk[|walk| - 1] == u;
      ClosedHolds(moving, tiles, walk);
    }
    forall t | t in tiles ensures Group(moving, t) == tiles {
      SameGroup(moving, start, t);
    }
  }

  /** Each once: as many as the set has. */
  ghost predicate ListsOnce(list: seq<Tile>, tiles: set<Tile>) {
    (forall t :: t in tiles <==> t in list) && |list| == |tiles|
  }

  /** A flood filled so far from `start`: what was seen before it is closed, and what has been
      found is reached and, but for what waits, has been looked all around. */
  ghost predicate Filling(moving: set<Tile>, before: set<Tile>, found: set<Tile>, waiting: seq<Tile>, start: Tile) {
    && found <= moving && before <= moving && found !! before && start in found
    && (forall t :: t in waiting ==> t in found)
    && (forall t :: t in found ==> Reaches(moving, start, t))
    && (forall a, b :: a in found && a !in waiting && b in moving && Adjacent(a, b) ==> b in before + found)
  }

  /** Nothing found is beside anything seen before. */
  lemma FilledIsClosed(moving: set<Tile>, before: set<Tile>, found: set<Tile>, start: Tile)
    requires Filling(moving, before, found, [], start) && Closed(moving, before)
    ensures Closed(moving, found) && Closed(moving, before + found)
  {
    forall a, b | a in found && b in moving && Adjacent(a, b) ensures b in found {
      AdjacentBothWays(a, b);
    }
  }

  /** One more tile found, beside the one being looked around. */
  lemma FoundMore(moving: set<Tile>, before: set<Tile>, found: set<Tile>, stack: seq<Tile>, at: Tile, next: Tile,
                  start: Tile)
    requires Filling(moving, before, found, stack + [at], start)
    requires Adjacent(at, next) && next in moving && next !in before + found
    ensures Filling(moving, before, found + {next}, stack + [next] + [at], start)
  {
    hide Adjacent;
    assert at in stack + [at];
    ReachesFurther(moving, start, at, next);
    assert forall t :: t in stack + [next] + [at] <==> t in stack + [at] || t == next;
  }

  /** A tile looked all around waits no more. */
  lemma LookedAround(moving: set<Tile>, before: set<Tile>, found: set<Tile>, stack: seq<Tile>, at: Tile, start: Tile)
    requires Filling(moving, before, found, stack + [at], start)
    requires forall j :: 0 <= j < 4 && Beside(at)[j] in moving ==> Beside(at)[j] in before + found
    ensures Filling(moving, before, found, stack, start)
  {
    hide Beside;
    assert forall t :: t in stack + [at] <==> t in stack || t == at;
    forall b | b in moving && Adjacent(at, b) ensures b in before + found {
      var j :| 0 <= j < |Beside(at)| && Beside(at)[j] == b;
    }
  }

  lemma ListedMore(group: seq<Tile>, found: set<Tile>, next: Tile)
    requires ListsOnce(group, found) && next !in found
    ensures ListsOnce(group + [next], found + {next})
  {
    assert forall t :: t in group + [next] <==> t in group || t == next;
  }

  /** The moving tiles beside one that have not been seen, seen and put on the stack. */
  method LookAround(moving: set<Tile>, at: Tile, seen: set<Tile>, group: seq<Tile>, stack: seq<Tile>,
                    ghost before: set<Tile>, ghost found: set<Tile>, ghost start: Tile)
    returns (seen': set<Tile>, group': seq<Tile>, stack': seq<Tile>, ghost found': set<Tile>)
    requires seen == before + found && ListsOnce(group, found)
    requires Filling(moving, before, found, stack + [at], start)
    ensures seen' == before + found' && ListsOnce(group', found')
    ensures Filling(moving, before, found', stack', start)
    ensures seen' <= moving
    ensures moving - seen' < moving - seen || (moving - seen' == moving - seen && |stack'| == |stack|)
  {
    seen', group', stack', found' := seen, group, stack, found;
    hide Beside, Adjacent, Filling, ListsOnce;
    for k := 0 to 4
      invariant seen' == before + found' && ListsOnce(group', found')
      invariant Filling(moving, before, found', stack' + [at], start)
      invariant forall j :: 0 <= j < k && Beside(at)[j] in moving ==> Beside(at)[j] in seen'
      invariant seen <= seen' && (seen' == seen ==> |stack'| == |stack|)
    {
      var next := Beside(at)[k];
      if next in moving && next !in seen' {
        assert Adjacent(at, next) by { NextIsBeside(at, k); }
        FoundMore(moving, before, found', stack', at, next, start);
        ListedMore(group', found', next);
        seen' := seen' + {next};
        found' := found' + {next};
        group' := group' + [next];
        stack' := stack' + [next];
      }
    }
    LookedAround(moving, before, found', stack', at, start);
    FilledMoves(moving, before, found', stack', start);
    if seen' != seen {
      var t :| t in seen' && t !in seen;
      assert t in moving - seen && t !in moving - seen';
    }
  }

  lemma NextIsBeside(at: Tile, k: nat)
    requires k < 4
    ensures Adjacent(at, Beside(at)[k])
  {}

  lemma FilledMoves(moving: set<Tile>, before: set<Tile>, found: set<Tile>, stack: seq<Tile>, start: Tile)
    requires Filling(moving, before, found, stack, start)
    ensures before + found <= moving
  {}

  method FloodFill(moving: set<Tile>, start: Tile, before: set<Tile>) returns (seen: set<Tile>, group: seq<Tile>)
    requires start in moving && before <= moving && start !in before && Closed(moving, before)
    ensures ListsOnce(group, Group(moving, start))
    ensures seen == before + Group(moving, start) && seen <= moving && Closed(moving, seen)
    ensures Group(moving, start) !! before
    ensures forall t :: t in Group(moving, start) ==> Group(moving, t) == Group(moving, start)
  {
    hide Filling, ListsOnce, Group, Closed;
    seen := before + {start};
    group := [start];
    var stack := [start];
    ghost var found := {start};
    StartFilling(moving, before, start);
    while stack != []
      invariant seen == before + found && ListsOnce(group, found) && seen <= moving
      invariant Filling(moving, before, found, stack, start)
      decreases moving - seen, |stack|
    {
      var at := stack[|stack| - 1];
      var rest := stack[..|stack| - 1];
      assert rest + [at] == stack;
      seen, group, stack, found := LookAround(moving, at, seen, group, rest, before, found, start);
    }
    FilledIsGroup(moving, before, found, start);
  }

  lemma StartFilling(moving: set<Tile>, before: set<Tile>, start: Tile)
    requires start in moving && before <= moving && start !in before
    ensures Filling(moving, before, {start}, [start], start) && ListsOnce([start], {start})
  {
    ReachesItself(moving, start);
  }

  lemma FilledIsGroup(moving: set<Tile>, before: set<Tile>, found: set<Tile>, start: Tile)
    requires Filling(moving, before, found, [], start) && Closed(moving, before)
    ensures found == Group(moving, start) && found !! before && Closed(moving, before + found)
    ensures forall t :: t in found ==> Group(moving, t) == found
  {
    FilledIsClosed(moving, before, found, start);
    ClosedIsGroup(moving, found, start);
  }

  /** The moving tiles a stream carries. */
  method Carried(moving: set<Tile>) returns (out: set<Tile>)
    ensures out == InLargeGroups(moving)
  {
    hide Group, Closed, Adjacent;
    out := {};
    var seen: set<Tile> := {};
    var rest := moving;
    NothingIsClosed(moving);
    while rest != {}
      invariant rest <= moving && seen <= moving && Closed(moving, seen) && moving - rest <= seen
      invariant forall t :: t in out <==> t in seen && |Group(moving, t)| >= MIN_STREAM_CELLS
      decreases rest
    {
      var start :| start in rest;
      rest := rest - {start};
      if start !in seen {
        var group;
        StartIsInItsGroup(moving, start);
        seen, group := FloodFill(moving, start, seen);
        if |group| >= MIN_STREAM_CELLS {
          out := out + set t | t in group;
        }
      }
    }
    assert seen == moving;
  }

  lemma NothingIsClosed(moving: set<Tile>)
    ensures Closed(moving, {})
  {}

  lemma StartIsInItsGroup(moving: set<Tile>, start: Tile)
    requires start in moving
    ensures start in Group(moving, start)
  {
    ReachesItself(moving, start);
  }
}
