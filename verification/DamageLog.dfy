/** What the damage log says of the picture, over every run of the framebuffer
    (src/framebuffer.rs).

    A `Trace` is a framebuffer with what it does not keep itself: the picture at every
    generation, and the log's entries that were dropped since the last resize.
 */
module DamageLog {
  import opened Options
  import opened Rects
  import opened Framebuffers

  /** What the compositor does to a framebuffer. */
  datatype Change =
    | Apply(frame: Frame, damage: seq<Rect>)
    | Resize(width: u16, height: u16, origin: ResizeOrigin)

  datatype Trace = Trace(fb: Fb, dropped: seq<Entry>, past: map<nat, Rows>)

  function Begin(w: u16, h: u16): Trace {
    Trace(NewFb(w, h), [], map[1 := Blank(w, h)])
  }

  /** The entries the log's limit drops off its front. */
  function Overflow(log: seq<Entry>): seq<Entry> {
    if |log| > LOG_LIMIT then log[..|log| - LOG_LIMIT] else []
  }

  predicate Accepts(fb: Fb, c: Change) {
    WellSized(fb) && (c.Apply? ==> Fits(c.frame, fb.width, fb.height))
  }

  function Changed(fb: Fb, c: Change): Fb
    requires Accepts(fb, c)
  {
    match c
    case Apply(frame, damage) => Applied(fb, frame, damage)
    case Resize(w, h, origin) => Resized(fb, w, h, origin)
  }

  function Traced(t: Trace, c: Change): Trace
    requires Accepts(t.fb, c)
  {
    var fb := Changed(t.fb, c);
    var past := t.past[fb.generation := fb.pixels];
    match c
    case Apply(_, damage) =>
      var noted := Noted(damage, t.fb.width, t.fb.height);
      if noted == [] then t
      else Trace(fb, t.dropped + Overflow(t.fb.log + Entries(noted, fb.generation)), past)
    case Resize(_, _, _) => Trace(fb, [], past)
  }

  /** Every entry since the last resize, dropped or kept. */
  function Full(t: Trace): seq<Entry> {
    t.dropped + t.fb.log
  }

  predicate Rising(log: seq<Entry>, low: nat, high: nat) {
    && (forall i :: 0 <= i < |log| ==> low < log[i].generation <= high)
    && (forall i, j :: 0 <= i < j < |log| ==> log[i].generation <= log[j].generation)
  }

  predicate EntriesInside(log: seq<Entry>, w: u16, h: u16) {
    forall i :: 0 <= i < |log| ==> log[i].rect.Within(0, 0, w, h) && !log[i].rect.IsEmpty()
  }

  predicate HasGeneration(log: seq<Entry>, g: nat) {
    exists i :: 0 <= i < |log| && log[i].generation == g
  }

  ghost predicate AllGenerations(log: seq<Entry>, low: nat, high: nat) {
    forall g :: low < g <= high ==> HasGeneration(log, g)
  }

  /** Some entry newer than `since` covers the pixel. */
  predicate ChangedAfter(log: seq<Entry>, since: nat, x: int, y: int) {
    exists i :: 0 <= i < |log| && log[i].generation > since && log[i].rect.Covers(x, y)
  }

  /** The picture at `since` and the picture now differ only where entries say. */
  ghost predicate Explained(was: Rows, now: Rows, log: seq<Entry>, since: nat, w: u16, h: u16)
    requires Sized(was, w, h) && Sized(now, w, h)
  {
    forall x, y :: 0 <= x < w && 0 <= y < h ==> was[y][x] == now[y][x] || ChangedAfter(log, since, x, y)
  }

  ghost predicate Inv(t: Trace) {
    var fb := t.fb;
    && WellSized(fb)
    && 1 <= fb.sizeGeneration <= fb.generation
    && |fb.log| <= LOG_LIMIT && (t.dropped != [] ==> |fb.log| == LOG_LIMIT)
    && Rising(Full(t), fb.sizeGeneration, fb.generation)
    && EntriesInside(Full(t), fb.width, fb.height)
    && AllGenerations(Full(t), fb.sizeGeneration, fb.generation)
    && (forall g :: 1 <= g <= fb.generation ==> g in t.past)
    && t.past[fb.generation] == fb.pixels
    && (forall g :: fb.sizeGeneration <= g <= fb.generation ==> PastExplained(t, g))
  }

  ghost predicate PastExplained(t: Trace, g: nat)
    requires WellSized(t.fb) && g in t.past
  {
    Sized(t.past[g], t.fb.width, t.fb.height)
    && Explained(t.past[g], t.fb.pixels, Full(t), g, t.fb.width, t.fb.height)
  }

  lemma BeginInv(w: u16, h: u16)
    ensures Inv(Begin(w, h))
  {
    var t := Begin(w, h);
    assert Full(t) == [];
    hide Full, ChangedAfter, HasGeneration;
    assert PastExplained(t, 1);
    hide PastExplained, Blank;
    assert AllGenerations([], 1, 1) && Rising([], 1, 1) && EntriesInside([], w, h);
  }

  lemma ResizeInv(t: Trace, w: u16, h: u16, origin: ResizeOrigin)
    requires Inv(t)
    ensures Inv(Traced(t, Resize(w, h, origin)))
  {
    var v := Traced(t, Resize(w, h, origin));
    var g := v.fb.generation;
    assert Full(v) == [];
    hide ChangedAfter, HasGeneration, Blank;
    assert PastExplained(v, g);
    hide PastExplained;
    assert AllGenerations([], g, g) && Rising([], g, g) && EntriesInside([], w, h);
  }

  lemma FullGrows(t: Trace, added: seq<Entry>)
    ensures var log := t.fb.log + added; t.dropped + Overflow(log) + Trimmed(log) == Full(t) + added
  {
    var log := t.fb.log + added;
    assert Overflow(log) + Trimmed(log) == log;
    assert t.dropped + Overflow(log) + Trimmed(log) == t.dropped + log == Full(t) + added;
  }

  lemma ExplainedAgain(t: Trace, f: Frame, noted: seq<Rect>, g: nat, added: seq<Entry>)
    requires Inv(t) && t.fb.sizeGeneration <= g <= t.fb.generation
    requires Fits(f, t.fb.width, t.fb.height)
    requires added == Entries(noted, t.fb.generation + 1)
    ensures var now := Painted(t.fb.pixels, f, noted, t.fb.width, t.fb.height);
            Sized(t.past[g], t.fb.width, t.fb.height)
            && Explained(t.past[g], now, Full(t) + added, g, t.fb.width, t.fb.height)
  {
    hide Straightened, Rising, EntriesInside, AllGenerations;
    assert PastExplained(t, g);
    var (w, h) := (t.fb.width, t.fb.height);
    var now := Painted(t.fb.pixels, f, noted, w, h);
    var log := Full(t) + added;
    forall x, y | 0 <= x < w && 0 <= y < h
      ensures t.past[g][y][x] == now[y][x] || ChangedAfter(log, g, x, y)
    {
      if CoveredBy(noted, x, y) {
        var i :| 0 <= i < |noted| && noted[i].Covers(x, y);
        assert log[|Full(t)| + i] == added[i];
      } else if t.past[g][y][x] != t.fb.pixels[y][x] {
        assert PastExplained(t, g);
        assert Explained(t.past[g], t.fb.pixels, Full(t), g, w, h);
        var i :| 0 <= i < |Full(t)| && Full(t)[i].generation > g && Full(t)[i].rect.Covers(x, y);
        assert log[i] == Full(t)[i];
      }
    }
  }

  lemma RisingGrows(log: seq<Entry>, noted: seq<Rect>, low: nat, high: nat)
    requires Rising(log, low, high) && low <= high
    ensures Rising(log + Entries(noted, high + 1), low, high + 1)
  {}

  lemma InsideGrows(log: seq<Entry>, damage: seq<Rect>, g: nat, w: u16, h: u16)
    requires EntriesInside(log, w, h)
    ensures EntriesInside(log + Entries(Noted(damage, w, h), g), w, h)
  {
    NotedInside(damage, w, h);
  }

  lemma GenerationsGrow(log: seq<Entry>, noted: seq<Rect>, low: nat, high: nat)
    requires noted != [] && AllGenerations(log, low, high)
    ensures AllGenerations(log + Entries(noted, high + 1), low, high + 1)
  {
    var more := log + Entries(noted, high + 1);
    forall g | low < g <= high + 1 ensures HasGeneration(more, g) {
      if g <= high {
        assert HasGeneration(log, g);
        var i :| 0 <= i < |log| && log[i].generation == g;
        assert more[i].generation == g;
      } else {
        assert more[|log|].generation == g;
      }
    }
  }

  /** What a frame with damage in it makes of a trace. */
  lemma TracedApply(t: Trace, f: Frame, damage: seq<Rect>)
    requires WellSized(t.fb) && Fits(f, t.fb.width, t.fb.height)
    requires Noted(damage, t.fb.width, t.fb.height) != []
    requires |t.fb.log| <= LOG_LIMIT && (t.dropped != [] ==> |t.fb.log| == LOG_LIMIT)
    ensures var u := Traced(t, Apply(f, damage));
            var noted := Noted(damage, t.fb.width, t.fb.height);
            && Full(u) == Full(t) + Entries(noted, t.fb.generation + 1)
            && u.fb.pixels == Painted(t.fb.pixels, f, noted, t.fb.width, t.fb.height)
            && u.past == t.past[t.fb.generation + 1 := u.fb.pixels]
            && u.fb.generation == t.fb.generation + 1 && u.fb.sizeGeneration == t.fb.sizeGeneration
            && u.fb.width == t.fb.width && u.fb.height == t.fb.height
            && |u.fb.log| <= LOG_LIMIT && (u.dropped != [] ==> |u.fb.log| == LOG_LIMIT)
  {
    hide Painted, Noted, Entries, Fits;
    var added := Entries(Noted(damage, t.fb.width, t.fb.height), t.fb.generation + 1);
    FullGrows(t, added);
    assert Traced(t, Apply(f, damage)).fb.log == Trimmed(t.fb.log + added);
  }

  /** The picture at every generation, the one after the frame included, is explained. */
  lemma PastGrows(t: Trace, f: Frame, damage: seq<Rect>, g: nat)
    requires Inv(t) && Fits(f, t.fb.width, t.fb.height) && Noted(damage, t.fb.width, t.fb.height) != []
    requires t.fb.sizeGeneration <= g <= t.fb.generation + 1
    ensures var u := Traced(t, Apply(f, damage)); g in u.past && PastExplained(u, g)
  {
    hide Painted, Rising, EntriesInside, AllGenerations, Entries, Noted, Full, Traced, CoveredBy, ChangedAfter;
    var noted := Noted(damage, t.fb.width, t.fb.height);
    var added := Entries(noted, t.fb.generation + 1);
    TracedApply(t, f, damage);
    if g <= t.fb.generation {
      ExplainedAgain(t, f, noted, g, added);
    }
  }

  lemma ApplyInv(t: Trace, f: Frame, damage: seq<Rect>)
    requires Inv(t) && Fits(f, t.fb.width, t.fb.height)
    ensures Inv(Traced(t, Apply(f, damage)))
  {
    var noted := Noted(damage, t.fb.width, t.fb.height);
    if noted == [] {
      assert Traced(t, Apply(f, damage)) == t;
    } else {
      hide PastExplained, Painted, Rising, EntriesInside, AllGenerations, Entries, Noted, Full, Traced;
      var added := Entries(noted, t.fb.generation + 1);
      var u := Traced(t, Apply(f, damage));
      TracedApply(t, f, damage);
      RisingGrows(Full(t), noted, t.fb.sizeGeneration, t.fb.generation);
      InsideGrows(Full(t), damage, t.fb.generation + 1, t.fb.width, t.fb.height);
      GenerationsGrow(Full(t), noted, t.fb.sizeGeneration, t.fb.generation);
      forall g | u.fb.sizeGeneration <= g <= u.fb.generation ensures g in u.past && PastExplained(u, g) {
        PastGrows(t, f, damage, g);
      }
    }
  }

  lemma ChangeInv(t: Trace, c: Change)
    requires Inv(t) && Accepts(t.fb, c)
    ensures Inv(Traced(t, c)) && t.fb.generation <= Traced(t, c).fb.generation
  {
    match c
    case Apply(frame, damage) => ApplyInv(t, frame, damage);
    case Resize(w, h, origin) => ResizeInv(t, w, h, origin);
  }

  /** What was the picture at a generation stays on the record. */
  lemma PastStays(t: Trace, c: Change, g: nat)
    requires Inv(t) && Accepts(t.fb, c) && 1 <= g <= t.fb.generation
    ensures g in Traced(t, c).past && Traced(t, c).past[g] == t.past[g]
  {
    hide Painted, Explained, Rising, EntriesInside, AllGenerations, Entries, Noted;
  }

  // ----- what an answer may leave out

  /** No entry newer than `since` has been dropped: the newest that was is no newer. */
  predicate Clean(t: Trace, since: nat) {
    t.dropped == [] || t.dropped[|t.dropped| - 1].generation <= since
  }

  lemma {:induction false} RectsAfterSum(a: seq<Entry>, b: seq<Entry>, since: nat)
    ensures RectsAfter(a + b, since) == RectsAfter(a, since) + RectsAfter(b, since)
    decreases |b|
  {
    if b == [] {
      assert a + b == a;
    } else {
      var front := b[..|b| - 1];
      assert (a + b)[..|a + b| - 1] == a + front;
      RectsAfterSum(a, front, since);
    }
  }

  lemma {:induction false} RectsAfterNone(log: seq<Entry>, since: nat)
    ensures RectsAfter(log, since) == [] <==> forall i :: 0 <= i < |log| ==> log[i].generation <= since
  {
    if log == [] {
    } else {
      var front := log[..|log| - 1];
      RectsAfterNone(front, since);
      assert forall i :: 0 <= i < |front| ==> front[i] == log[i];
    }
  }

  /** The answer counts every rectangle noted after `since`, dropped ones included, exactly
      when the newest entry dropped is no newer than `since`. */
  lemma AnswerIsCompleteWhenClean(t: Trace, since: nat)
    requires Inv(t)
    ensures RectsAfter(t.fb.log, since) == RectsAfter(Full(t), since) <==> Clean(t, since)
  {
    RectsAfterSum(t.dropped, t.fb.log, since);
    RectsAfterNone(t.dropped, since);
    var d := t.dropped;
    assert RectsAfter(t.fb.log, since) == RectsAfter(Full(t), since) ==> |RectsAfter(d, since)| == 0;
    assert [] + RectsAfter(t.fb.log, since) == RectsAfter(t.fb.log, since);
    if d != [] {
      assert Rising(Full(t), t.fb.sizeGeneration, t.fb.generation);
      assert forall i :: 0 <= i < |d| ==> Full(t)[i] == d[i];
    }
  }

  /** The generation right after `since` is split: some of it dropped, and some kept. */
  predicate Split(t: Trace, since: nat) {
    && t.dropped != [] && t.dropped[|t.dropped| - 1].generation == since + 1
    && t.fb.log != [] && t.fb.log[0].generation == since + 1
  }

  /** The guard the code has lets an incomplete answer through in one case only: the
      generation right after `since` is split. */
  lemma GuardMissesASplitGeneration(t: Trace, since: nat)
    requires Inv(t) && t.fb.sizeGeneration <= since <= t.fb.generation
    ensures DamageSince(t.fb, since).Some? && !Clean(t, since) <==> Split(t, since)
  {
    if t.dropped != [] {
      var i := |t.dropped| - 1;
      assert Full(t)[i] == t.dropped[i] && Full(t)[i + 1] == t.fb.log[0];
      assert Rising(Full(t), t.fb.sizeGeneration, t.fb.generation);
    }
  }

  /** A guard that takes the front's own generation for the limit, once the log is full,
      lets none through. */
  lemma StricterGuardSuffices(t: Trace, since: nat)
    requires Inv(t)
    requires |t.fb.log| < LOG_LIMIT || t.fb.log[0].generation <= since
    ensures Clean(t, since)
  {
    if t.dropped != [] {
      var i := |t.dropped| - 1;
      assert Full(t)[i] == t.dropped[i] && Full(t)[i + 1] == t.fb.log[0];
      assert Rising(Full(t), t.fb.sizeGeneration, t.fb.generation);
    }
  }

  /** In what has happened alone: nothing newer was dropped exactly when no more rectangles
      have been noted after `since` than the log has room for. */
  lemma CleanIsRoom(t: Trace, since: nat)
    requires Inv(t)
    ensures Clean(t, since) <==> |RectsAfter(Full(t), since)| <= LOG_LIMIT
  {
    AnswerIsCompleteWhenClean(t, since);
    RectsAfterSum(t.dropped, t.fb.log, since);
    RectsAfterNone(t.dropped, since);
    RectsAfterSize(t.fb.log, since);
    if !Clean(t, since) {
      var i := |t.dropped| - 1;
      assert Full(t)[i] == t.dropped[i];
      forall j | 0 <= j < |t.fb.log| ensures t.fb.log[j].generation > since {
        assert Full(t)[|t.dropped| + j] == t.fb.log[j];
        assert Rising(Full(t), t.fb.sizeGeneration, t.fb.generation);
      }
    }
  }

  /** So the guard misleads exactly when the log had room for all that was noted after the next
      generation, and to spare, but not for all of that generation too. */
  lemma SplitIsOverflow(t: Trace, since: nat)
    requires Inv(t) && t.fb.sizeGeneration <= since < t.fb.generation
    ensures Split(t, since)
        <==> |RectsAfter(Full(t), since + 1)| < LOG_LIMIT < |RectsAfter(Full(t), since)|
  {
    CleanIsRoom(t, since);
    CleanIsRoom(t, since + 1);
    AnswerIsCompleteWhenClean(t, since + 1);
    RectsAfterSize(t.fb.log, since + 1);
    if t.dropped != [] {
      var i := |t.dropped| - 1;
      assert Full(t)[i] == t.dropped[i] && Full(t)[i + 1] == t.fb.log[0];
      assert Rising(Full(t), t.fb.sizeGeneration, t.fb.generation);
      forall j | 0 <= j < |t.fb.log| ensures t.fb.log[j].generation >= t.fb.log[0].generation {
        assert Full(t)[|t.dropped| + j] == t.fb.log[j];
      }
    }
  }

  lemma {:induction false} RectsAfterSize(log: seq<Entry>, since: nat)
    ensures |RectsAfter(log, since)| <= |log|
    ensures (forall i :: 0 <= i < |log| ==> log[i].generation > since) <==> |RectsAfter(log, since)| == |log|
  {
    if log == [] {
    } else {
      var front := log[..|log| - 1];
      RectsAfterSize(front, since);
      assert forall i :: 0 <= i < |front| ==> front[i] == log[i];
    }
  }

  lemma {:induction false} RectsAfterCovers(log: seq<Entry>, since: nat, x: int, y: int)
    ensures CoveredBy(RectsAfter(log, since), x, y) <==> ChangedAfter(log, since, x, y)
  {
    if log == [] {
    } else {
      var front, last := log[..|log| - 1], log[|log| - 1];
      RectsAfterCovers(front, since, x, y);
      CoveredByMore(RectsAfter(front, since), last.rect, x, y);
      assert last.generation <= since ==> RectsAfter(log, since) == RectsAfter(front, since);
      if ChangedAfter(front, since, x, y) {
        var i :| 0 <= i < |front| && front[i].generation > since && front[i].rect.Covers(x, y);
        assert log[i] == front[i];
      }
      if ChangedAfter(log, since, x, y) {
        var i :| 0 <= i < |log| && log[i].generation > since && log[i].rect.Covers(x, y);
        assert i < |front| ==> log[i] == front[i];
      }
    }
  }

  lemma {:induction false} RectsAfterInside(log: seq<Entry>, since: nat, w: u16, h: u16)
    requires EntriesInside(log, w, h)
    ensures AllWithin(RectsAfter(log, since), 0, 0, w, h) && NoneEmpty(RectsAfter(log, since))
  {
    if log == [] {
    } else {
      var front := log[..|log| - 1];
      assert forall i :: 0 <= i < |front| ==> front[i] == log[i];
      RectsAfterInside(front, since, w, h);
    }
  }

  /** The answer's rectangles lie in the framebuffer, none empty, no two touching and few. */
  lemma AnswerShape(t: Trace, since: nat)
    requires Inv(t) && DamageSince(t.fb, since).Some?
    ensures var rects := DamageSince(t.fb, since).value;
            AllWithin(rects, 0, 0, t.fb.width, t.fb.height) && NoneEmpty(rects)
            && Apart(rects) && |rects| <= ANSWER_LIMIT
  {
    if since < t.fb.generation {
      KeptInside(t);
      RectsAfterInside(t.fb.log, since, t.fb.width, t.fb.height);
      MergeKeeps(RectsAfter(t.fb.log, since), ANSWER_LIMIT, 0, 0, t.fb.width, t.fb.height);
    }
  }

  /** No entry dropped that is newer than `since` covers a pixel outside the answer. */
  ghost predicate NothingLost(t: Trace, since: nat)
    requires DamageSince(t.fb, since).Some?
  {
    forall x, y :: ChangedAfter(t.dropped, since, x, y) ==> CoveredBy(DamageSince(t.fb, since).value, x, y)
  }

  /** Only a split generation can lose anything. */
  lemma OnlyASplitLoses(t: Trace, since: nat)
    requires Inv(t) && since <= t.fb.generation && DamageSince(t.fb, since).Some? && !Split(t, since)
    ensures NothingLost(t, since)
  {
    GuardMissesASplitGeneration(t, since);
    var d := t.dropped;
    forall i | 0 <= i < |d| ensures d[i].generation <= since {
      assert Full(t)[i] == d[i] && Full(t)[|d| - 1] == d[|d| - 1];
      assert Rising(Full(t), t.fb.sizeGeneration, t.fb.generation);
    }
  }

  /** Damage soundness: where the answer is rectangles and loses nothing, every pixel outside
      them is the same at generation `since` and now. */
  lemma DamageIsSound(t: Trace, since: nat)
    requires Inv(t) && since <= t.fb.generation
    requires DamageSince(t.fb, since).Some? && NothingLost(t, since)
    ensures t.fb.sizeGeneration <= since && since in t.past && Sized(t.past[since], t.fb.width, t.fb.height)
    ensures Unchanged(t.past[since], t.fb, DamageSince(t.fb, since).value)
  {
    hide Merge, RectsAfter, CoveredBy, ChangedAfter, Full, Explained, NothingLost;
    hide Rising, EntriesInside, AllGenerations;
    assert PastExplained(t, since);
    if since < t.fb.generation {
      AnswerCovers(t, since);
      OutsideUnchanged(t, since, DamageSince(t.fb, since).value);
    }
  }

  /** The framebuffer is the picture `was` but for the rectangles. */
  ghost predicate Unchanged(was: Rows, fb: Fb, rects: seq<Rect>)
    requires WellSized(fb) && Sized(was, fb.width, fb.height)
  {
    forall x, y :: 0 <= x < fb.width && 0 <= y < fb.height && !CoveredBy(rects, x, y) ==>
      was[y][x] == fb.pixels[y][x]
  }

  lemma OutsideUnchanged(t: Trace, since: nat, rects: seq<Rect>)
    requires WellSized(t.fb) && since in t.past && PastExplained(t, since)
    requires forall x, y :: ChangedAfter(Full(t), since, x, y) ==> CoveredBy(rects, x, y)
    ensures Unchanged(t.past[since], t.fb, rects)
  {
    hide CoveredBy, ChangedAfter, Full;
  }

  /** An answer that loses nothing covers every pixel an entry newer than `since` does. */
  lemma AnswerCovers(t: Trace, since: nat)
    requires Inv(t) && t.fb.sizeGeneration <= since < t.fb.generation
    requires DamageSince(t.fb, since).Some? && NothingLost(t, since)
    ensures var rects := DamageSince(t.fb, since).value;
            forall x, y :: ChangedAfter(Full(t), since, x, y) ==> CoveredBy(rects, x, y)
  {
    var (rects, newer) := (DamageSince(t.fb, since).value, RectsAfter(t.fb.log, since));
    KeptInside(t);
    RectsAfterInside(t.fb.log, since, t.fb.width, t.fb.height);
    MergeKeeps(newer, ANSWER_LIMIT, 0, 0, t.fb.width, t.fb.height);
    hide Merge, RectsAfter, CoveredBy, ChangedAfter, Inv, AllWithin, NoneEmpty, Apart, Full, DamageSince;
    forall x, y | ChangedAfter(Full(t), since, x, y) ensures CoveredBy(rects, x, y) {
      ChangedInEither(t.dropped, t.fb.log, since, x, y);
      assert Full(t) == t.dropped + t.fb.log by { FullIs(t); }
      if ChangedAfter(t.fb.log, since, x, y) {
        RectsAfterCovers(t.fb.log, since, x, y);
      }
    }
  }

  lemma FullIs(t: Trace)
    ensures Full(t) == t.dropped + t.fb.log
  {}

  lemma ChangedInEither(a: seq<Entry>, b: seq<Entry>, since: nat, x: int, y: int)
    ensures ChangedAfter(a + b, since, x, y) <==> ChangedAfter(a, since, x, y) || ChangedAfter(b, since, x, y)
  {
    if ChangedAfter(a, since, x, y) {
      var i :| 0 <= i < |a| && a[i].generation > since && a[i].rect.Covers(x, y);
      assert (a + b)[i] == a[i];
    }
    if ChangedAfter(b, since, x, y) {
      var i :| 0 <= i < |b| && b[i].generation > since && b[i].rect.Covers(x, y);
      assert (a + b)[|a| + i] == b[i];
    }
  }

  lemma KeptInside(t: Trace)
    requires Inv(t)
    ensures EntriesInside(t.fb.log, t.fb.width, t.fb.height)
  {
    assert forall i :: 0 <= i < |t.fb.log| ==> t.fb.log[i] == Full(t)[|t.dropped| + i];
  }

  /** The trace after a list of changes, while each frame fits. */
  function RunChanges(t: Trace, changes: seq<Change>): Option<Trace>
    decreases |changes|
  {
    if changes == [] then Some(t)
    else if Accepts(t.fb, changes[0]) then RunChanges(Traced(t, changes[0]), changes[1..])
    else None
  }

  lemma {:induction false} RunInv(t: Trace, changes: seq<Change>)
    requires Inv(t) && RunChanges(t, changes).Some?
    ensures Inv(RunChanges(t, changes).value)
    decreases |changes|
  {
    hide Inv, Traced;
    if changes == [] {
    } else {
      ChangeInv(t, changes[0]);
      RunInv(Traced(t, changes[0]), changes[1..]);
    }
  }

  lemma InvSized(t: Trace)
    requires Inv(t)
    ensures WellSized(t.fb)
  {}

  /** Soundness over every run of captures and resizes, however long, whose answer loses
      nothing. */
  lemma EveryRunIsSound(w: u16, h: u16, changes: seq<Change>, since: nat, x: nat, y: nat)
    requires RunChanges(Begin(w, h), changes).Some?
    requires var t := RunChanges(Begin(w, h), changes).value;
             && since <= t.fb.generation && x < t.fb.width && y < t.fb.height
             && DamageSince(t.fb, since).Some? && NothingLost(t, since)
    ensures var t := RunChanges(Begin(w, h), changes).value;
            && since in t.past && Sized(t.past[since], t.fb.width, t.fb.height)
            && WellSized(t.fb)
            && (CoveredBy(DamageSince(t.fb, since).value, x, y) || t.past[since][y][x] == t.fb.pixels[y][x])
  {
    hide DamageSince, NothingLost, Inv;
    BeginInv(w, h);
    RunInv(Begin(w, h), changes);
    InvSized(RunChanges(Begin(w, h), changes).value);
    DamageIsSound(RunChanges(Begin(w, h), changes).value, since);
  }

  // ----- where the guard fails

  /** A frame of one row of four pixels, every byte 1. */
  function OnesFrame(): (f: Frame)
    ensures Fits(f, 4, 1)
  {
    Frame(seq(16, i => 1), 16, FrameLayout(false, BGRX))
  }

  /** The corner pixel, and the last one as often as the log has room. */
  function SplittingDamage(): (damage: seq<Rect>)
    ensures |damage| == 513 && damage[0] == Rect(0, 0, 1, 1)
    ensures forall i :: 1 <= i < 513 ==> damage[i] == Rect(3, 0, 1, 1)
  {
    [Rect(0, 0, 1, 1)] + seq(512, i => Rect(3, 0, 1, 1))
  }

  lemma {:induction false} AllNoted(damage: seq<Rect>, w: u16, h: u16)
    requires AllWithin(damage, 0, 0, w, h) && NoneEmpty(damage)
    ensures Noted(damage, w, h) == damage
  {
    if damage == [] {
    } else {
      var front, last := damage[..|damage| - 1], damage[|damage| - 1];
      AllNoted(front, w, h);
      assert last.Clipped(w, h) == Some(last);
      assert front + [last] == damage;
    }
  }

  /** The guard is not enough: one frame of 513 rectangles drops the first of them, and a
      session that sent the generation before is told of the rest alone. The pixel the
      dropped one covered has changed, and lies outside the answer. */
  lemma SplitGenerationIsUnsound()
    ensures Accepts(Begin(4, 1).fb, Apply(OnesFrame(), SplittingDamage()))
    ensures var u := Traced(Begin(4, 1), Apply(OnesFrame(), SplittingDamage()));
            && Split(u, 1) && DamageSince(u.fb, 1).Some? && !NothingLost(u, 1)
            && !CoveredBy(DamageSince(u.fb, 1).value, 0, 0)
            && 1 in u.past && Sized(u.past[1], 4, 1) && Sized(u.fb.pixels, 4, 1)
            && u.past[1][0][0] != u.fb.pixels[0][0]
  {
    hide Merge, SplittingDamage, OnesFrame, Applied, DamageSince, CoveredBy, Split, NothingLost, Traced;
    assert Begin(4, 1).fb.pixels[0][0] == BLANK;
    SplitTrace(Begin(4, 1));
    SplitPixel(Begin(4, 1).fb, OnesFrame(), SplittingDamage());
  }

  /** That frame, on any framebuffer of its size whose log has room for one entry more. */
  lemma SplitTrace(t: Trace)
    requires WellSized(t.fb) && t.fb.width == 4 && t.fb.height == 1 && |t.fb.log| < LOG_LIMIT
    requires 1 <= t.fb.sizeGeneration <= t.fb.generation
    ensures var u := Traced(t, Apply(OnesFrame(), SplittingDamage()));
            var g := t.fb.generation;
            && u.fb.generation == g + 1 && u.fb.sizeGeneration == t.fb.sizeGeneration
            && u.fb.width == 4 && u.fb.height == 1 && u.fb.painted
            && u.fb == Applied(t.fb, OnesFrame(), SplittingDamage()) && u.past == t.past[g + 1 := u.fb.pixels]
            && Split(u, g) && DamageSince(u.fb, g).Some? && !NothingLost(u, g)
            && !CoveredBy(DamageSince(u.fb, g).value, 0, 0)
  {
    var (f, damage, g) := (OnesFrame(), SplittingDamage(), t.fb.generation);
    hide Noted, Painted, Merge, SplittingDamage, OnesFrame, RectsAfter, Entries, Trimmed, Overflow, Fits;
    SplitLog(t.fb.log, damage, g + 1);
    AllNoted(damage, 4, 1);
    var u := Traced(t, Apply(f, damage));
    SplitAnswer(u.fb.log, g);
    var d := u.dropped;
    assert d[|d| - 1] == Entry(g + 1, Rect(0, 0, 1, 1)) && d[|d| - 1].rect.Covers(0, 0);
    assert ChangedAfter(d, g, 0, 0);
  }

  /** The corner is painted over with one. */
  lemma SplitPixel(fb: Fb, f: Frame, damage: seq<Rect>)
    requires WellSized(fb) && fb.width == 4 && fb.height == 1 && f == OnesFrame()
    requires |damage| > 0 && damage[0] == Rect(0, 0, 1, 1)
    ensures Applied(fb, f, damage).pixels[0][0] == Pixel(1, 1, 1, 1)
  {
    OnesPixel();
    hide Applied, OnesFrame, Straightened;
    AppliedAt(fb, f, damage, 0, 0);
    assert damage[0].Covers(0, 0);
  }

  lemma OnesPixel()
    ensures Straightened(OnesFrame(), 4, 1, 0, 0) == Pixel(1, 1, 1, 1)
  {
    var f := OnesFrame();
    assert RowStart(f, 4, 1, 0) == 0;
    assert ReadPixel(f, 0) == Pixel(1, 1, 1, 1);
  }

  lemma SplitAnswer(log: seq<Entry>, g: nat)
    requires forall i :: 0 <= i < |log| ==> log[i] == Entry(g + 1, Rect(3, 0, 1, 1))
    ensures !CoveredBy(Merge(RectsAfter(log, g), ANSWER_LIMIT), 0, 0)
  {
    OneRectAfter(log, Rect(3, 0, 1, 1), g);
    MergeKeeps(RectsAfter(log, g), ANSWER_LIMIT, 3, 0, 4, 1);
  }

  lemma SplitLog(log: seq<Entry>, damage: seq<Rect>, g: nat)
    requires |log| < LOG_LIMIT && |damage| == 513 && damage[0] == Rect(0, 0, 1, 1)
    requires forall i :: 1 <= i < 513 ==> damage[i] == Rect(3, 0, 1, 1)
    ensures Overflow(log + Entries(damage, g)) == log + [Entry(g, Rect(0, 0, 1, 1))]
    ensures var kept := Trimmed(log + Entries(damage, g));
            |kept| == 512 && forall i :: 0 <= i < |kept| ==> kept[i] == Entry(g, Rect(3, 0, 1, 1))
  {}

  lemma {:induction false} OneRectAfter(log: seq<Entry>, r: Rect, g: nat)
    requires forall i :: 0 <= i < |log| ==> log[i] == Entry(g + 1, r)
    ensures forall i :: 0 <= i < |RectsAfter(log, g)| ==> RectsAfter(log, g)[i] == r
  {
    if log == [] {
    } else {
      OneRectAfter(log[..|log| - 1], r, g);
    }
  }
}
