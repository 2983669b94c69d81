/** When the damage log's answer is sound whatever the frames hold (src/framebuffer.rs).

    Two runs are alike when they differ only in what their frames hold. Alike runs have the
    same log, and so the same answer; only the pictures differ.
 */
module DamageExactness {
  import opened Options
  import opened Rects
  import opened Framebuffers
  import opened DamageLog

  /** The same change but for what a frame holds. */
  predicate AlikeChange(c: Change, d: Change) {
    if c.Apply? then d.Apply? && d.damage == c.damage else d == c
  }

  predicate AlikeChanges(changes: seq<Change>, others: seq<Change>) {
    |others| == |changes| && forall i :: 0 <= i < |changes| ==> AlikeChange(changes[i], others[i])
  }

  /** The same but for the pictures. */
  predicate AlikeFb(a: Fb, b: Fb) {
    a.(pixels := []) == b.(pixels := [])
  }

  predicate AlikeTrace(t: Trace, u: Trace) {
    AlikeFb(t.fb, u.fb) && t.dropped == u.dropped
  }

  lemma AlikeStep(t: Trace, u: Trace, c: Change, d: Change)
    requires AlikeTrace(t, u) && AlikeChange(c, d) && Accepts(t.fb, c) && Accepts(u.fb, d)
    ensures AlikeTrace(Traced(t, c), Traced(u, d))
  {
    hide Painted, Noted, Entries, Trimmed, Overflow, Fits;
  }

  /** Alike traces give the same answer, and lose the same. */
  lemma AlikeAnswer(t: Trace, u: Trace, since: nat)
    requires AlikeTrace(t, u)
    ensures DamageSince(t.fb, since) == DamageSince(u.fb, since)
    ensures DamageSince(t.fb, since).Some? ==> (NothingLost(t, since) <==> NothingLost(u, since))
  {}

  lemma {:induction false} AlikeRun(t: Trace, u: Trace, changes: seq<Change>, others: seq<Change>)
    requires AlikeTrace(t, u) && AlikeChanges(changes, others)
    requires RunChanges(t, changes).Some? && RunChanges(u, others).Some?
    ensures AlikeTrace(RunChanges(t, changes).value, RunChanges(u, others).value)
    decreases |changes|
  {
    hide Traced, Accepts, AlikeTrace;
    if changes != [] {
      assert AlikeChange(changes[0], others[0]);
      AlikeStep(t, u, changes[0], others[0]);
      AlikeRun(Traced(t, changes[0]), Traced(u, others[0]), changes[1..], others[1..]);
    }
  }

  // ----- frames that show what was lost

  const ONE: Pixel := Pixel(1, 1, 1, 1)

  /** A frame of this size, every byte of it the same. */
  function Plain(w: u16, h: u16, b: byte): (f: Frame)
    ensures Fits(f, w, h)
    ensures forall x, y :: 0 <= x < w && 0 <= y < h ==> Straightened(f, w, h, x, y) == Pixel(b, b, b, b)
  {
    Frame(seq(RowOffset(h, 4 * w), i => b), 4 * w, FrameLayout(false, BGRX))
  }

  /** The same change of plain frames: blank up to a generation, and ones from then on. */
  function Recolored(fb: Fb, c: Change, since: nat): (d: Change)
    ensures AlikeChange(c, d)
  {
    match c
    case Resize(_, _, _) => c
    case Apply(_, damage) => Apply(Plain(fb.width, fb.height, if fb.generation < since then 0 else 1), damage)
  }

  predicate AllBlank(rows: Rows) {
    forall y :: 0 <= y < |rows| ==> forall x :: 0 <= x < |rows[y]| ==> rows[y][x] == BLANK
  }

  /** Every pixel an entry newer than `since` covers is one. */
  ghost predicate OnesSince(rows: Rows, log: seq<Entry>, since: nat) {
    forall y :: 0 <= y < |rows| ==>
      forall x :: 0 <= x < |rows[y]| && ChangedAfter(log, since, x, y) ==> rows[y][x] == ONE
  }

  /** Blank up to `since`, and ones wherever anything changed after it. */
  ghost predicate Colored(t: Trace, since: nat) {
    && (t.fb.generation <= since ==> AllBlank(t.fb.pixels))
    && (since <= t.fb.generation ==> since in t.past && AllBlank(t.past[since]))
    && (t.fb.sizeGeneration <= since ==> OnesSince(t.fb.pixels, Full(t), since))
  }

  lemma BeginColored(w: u16, h: u16, since: nat)
    requires since >= 1
    ensures Colored(Begin(w, h), since)
  {}

  lemma PlainPainted(rows: Rows, w: u16, h: u16, b: byte, rects: seq<Rect>)
    requires Sized(rows, w, h)
    ensures b == 0 && AllBlank(rows) ==> AllBlank(Painted(rows, Plain(w, h, b), rects, w, h))
    ensures var painted := Painted(rows, Plain(w, h, b), rects, w, h);
            forall x, y :: 0 <= x < w && 0 <= y < h ==>
              painted[y][x] == if CoveredBy(rects, x, y) then Pixel(b, b, b, b) else rows[y][x]
  {
    hide Plain, Straightened, CoveredBy, Fits;
  }

  /** No entry is newer than the framebuffer. */
  lemma NoneNewer(t: Trace, since: nat)
    requires Inv(t) && t.fb.generation <= since
    ensures forall x, y :: !ChangedAfter(Full(t), since, x, y)
  {}

  lemma EntriesCover(rects: seq<Rect>, g: nat, since: nat, x: int, y: int)
    requires g > since
    ensures ChangedAfter(Entries(rects, g), since, x, y) <==> CoveredBy(rects, x, y)
  {
    if CoveredBy(rects, x, y) {
      var i :| 0 <= i < |rects| && rects[i].Covers(x, y);
      assert Entries(rects, g)[i].rect.Covers(x, y);
    }
  }

  lemma ResizeColored(t: Trace, c: Change, since: nat)
    requires Inv(t) && Colored(t, since) && since >= 1 && c.Resize?
    ensures Colored(Traced(t, c), since)
  {
    var u := Traced(t, c);
    assert Full(u) == [];
  }

  lemma ApplyColored(t: Trace, f: Frame, damage: seq<Rect>, since: nat)
    requires Inv(t) && Colored(t, since) && since >= 1
    requires Fits(f, t.fb.width, t.fb.height)
    ensures Colored(Traced(t, Recolored(t.fb, Apply(f, damage), since)), since)
  {
    var (w, h, g) := (t.fb.width, t.fb.height, t.fb.generation);
    var noted := Noted(damage, w, h);
    if noted != [] {
      var b: byte := if g < since then 0 else 1;
      var d := Recolored(t.fb, Apply(f, damage), since);
      var u := Traced(t, d);
      TracedApply(t, Plain(w, h, b), damage);
      PlainPainted(t.fb.pixels, w, h, b, noted);
      ApplyInv(t, Plain(w, h, b), damage);
      hide Painted, Noted, Entries, Plain, Full, CoveredBy, ChangedAfter, Traced;
      if g < since {
        NoneNewer(u, since);
      } else if t.fb.sizeGeneration <= since {
        forall x, y | 0 <= x < w && 0 <= y < h && ChangedAfter(Full(u), since, x, y)
          ensures u.fb.pixels[y][x] == ONE
        {
          ChangedInEither(Full(t), Entries(noted, g + 1), since, x, y);
          EntriesCover(noted, g + 1, since, x, y);
        }
      }
    }
  }

  lemma RecoloredStep(t: Trace, u: Trace, c: Change, since: nat)
    requires Inv(u) && AlikeTrace(t, u) && Colored(u, since) && since >= 1 && Accepts(t.fb, c)
    ensures var d := Recolored(u.fb, c, since);
            Accepts(u.fb, d) && Inv(Traced(u, d)) && Colored(Traced(u, d), since)
            && AlikeTrace(Traced(t, c), Traced(u, d))
  {
    var d := Recolored(u.fb, c, since);
    match c {
      case Resize(_, _, _) => ResizeColored(u, c, since);
      case Apply(f, damage) => ApplyColored(u, f, damage, since);
    }
    ChangeInv(u, d);
    AlikeStep(t, u, c, d);
  }

  /** Every run has one alike of plain frames. */
  lemma {:induction false} RecoloredRun(t: Trace, u: Trace, changes: seq<Change>, since: nat)
    returns (others: seq<Change>)
    requires Inv(u) && AlikeTrace(t, u) && Colored(u, since) && since >= 1
    requires RunChanges(t, changes).Some?
    ensures AlikeChanges(changes, others) && RunChanges(u, others).Some?
    ensures var v := RunChanges(u, others).value;
            Inv(v) && Colored(v, since) && AlikeTrace(RunChanges(t, changes).value, v)
    decreases |changes|
  {
    hide Inv, Traced, Accepts, AlikeTrace, Colored, AlikeChange;
    if changes == [] {
      others := [];
    } else {
      var d := Recolored(u.fb, changes[0], since);
      RecoloredStep(t, u, changes[0], since);
      var rest := RecoloredRun(Traced(t, changes[0]), Traced(u, d), changes[1..], since);
      others := [d] + rest;
      assert others[1..] == rest;
    }
  }

  /** A pixel outside the answer, one of a dropped entry, that was blank and is one. */
  lemma LostPixelShows(t: Trace, since: nat) returns (x: nat, y: nat)
    requires Inv(t) && Colored(t, since) && since <= t.fb.generation
    requires DamageSince(t.fb, since).Some? && !NothingLost(t, since)
    ensures x < t.fb.width && y < t.fb.height && !CoveredBy(DamageSince(t.fb, since).value, x, y)
    ensures since in t.past && Sized(t.past[since], t.fb.width, t.fb.height)
    ensures t.past[since][y][x] == BLANK && t.fb.pixels[y][x] == ONE
  {
    var rects := DamageSince(t.fb, since).value;
    var px, py :| ChangedAfter(t.dropped, since, px, py) && !CoveredBy(rects, px, py);
    var i :| 0 <= i < |t.dropped| && t.dropped[i].generation > since && t.dropped[i].rect.Covers(px, py);
    assert Full(t)[i] == t.dropped[i];
    assert t.dropped[i].rect.Within(0, 0, t.fb.width, t.fb.height);
    x, y := px, py;
    ChangedInEither(t.dropped, t.fb.log, since, x, y);
    assert PastExplained(t, since);
    hide ChangedAfter, CoveredBy, Explained, DamageSince;
  }

  // ----- the exact condition

  /** The answer for `since` is sound: what it leaves out has not changed. */
  ghost predicate AnswerIsSound(t: Trace, since: nat) {
    && DamageSince(t.fb, since).Some? && WellSized(t.fb)
    && since in t.past && Sized(t.past[since], t.fb.width, t.fb.height)
    && Unchanged(t.past[since], t.fb, DamageSince(t.fb, since).value)
  }

  /** The answer is sound whatever the frames hold if and only if nothing dropped that is newer
      than `since` lies outside it. */
  lemma SoundWhateverTheFramesHold(w: u16, h: u16, changes: seq<Change>, since: nat)
    requires RunChanges(Begin(w, h), changes).Some?
    requires var t := RunChanges(Begin(w, h), changes).value;
             since <= t.fb.generation && DamageSince(t.fb, since).Some?
    ensures var t := RunChanges(Begin(w, h), changes).value;
            (forall others :: AlikeChanges(changes, others) && RunChanges(Begin(w, h), others).Some? ==>
               AnswerIsSound(RunChanges(Begin(w, h), others).value, since))
            <==> NothingLost(t, since)
  {
    var (begin, t) := (Begin(w, h), RunChanges(Begin(w, h), changes).value);
    BeginInv(w, h);
    assert since >= 1;
    hide Begin, Inv, RunChanges, NothingLost, AlikeChanges, DamageSince, AlikeTrace, Unchanged, Colored;
    if NothingLost(t, since) {
      forall others | AlikeChanges(changes, others) && RunChanges(begin, others).Some?
        ensures AnswerIsSound(RunChanges(begin, others).value, since)
      {
        AlikeRunIsSound(begin, changes, others, since);
      }
    } else {
      BeginColored(w, h, since);
      AlikeItself(begin);
      var others := RecoloredRun(begin, begin, changes, since);
      LostIsUnsound(t, RunChanges(begin, others).value, since);
    }
  }

  lemma AlikeItself(t: Trace)
    ensures AlikeTrace(t, t)
  {}

  lemma AlikeRunIsSound(begin: Trace, changes: seq<Change>, others: seq<Change>, since: nat)
    requires Inv(begin) && AlikeChanges(changes, others)
    requires RunChanges(begin, changes).Some? && RunChanges(begin, others).Some?
    requires var t := RunChanges(begin, changes).value;
             since <= t.fb.generation && DamageSince(t.fb, since).Some? && NothingLost(t, since)
    ensures AnswerIsSound(RunChanges(begin, others).value, since)
  {
    var (t, u) := (RunChanges(begin, changes).value, RunChanges(begin, others).value);
    AlikeItself(begin);
    AlikeRun(begin, begin, changes, others);
    AlikeAnswer(t, u, since);
    RunInv(begin, others);
    hide RunChanges, NothingLost, AlikeChanges, DamageSince, Unchanged;
    assert u.fb.generation == t.fb.generation;
    InvSized(u);
    DamageIsSound(u, since);
  }

  lemma LostIsUnsound(t: Trace, u: Trace, since: nat)
    requires AlikeTrace(t, u) && Inv(u) && Colored(u, since) && since <= t.fb.generation
    requires DamageSince(t.fb, since).Some? && !NothingLost(t, since)
    ensures !AnswerIsSound(u, since)
  {
    AlikeAnswer(t, u, since);
    assert u.fb.generation == t.fb.generation;
    var x, y := LostPixelShows(u, since);
    hide DamageSince, Inv, Colored;
  }
}
