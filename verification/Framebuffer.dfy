/** The framebuffer: one copy of the captured output's pixels, and a bounded log of what
    changed when (src/framebuffer.rs).

    A picture is its rows from the top, each a row of pixels of four bytes. `Fb` is the
    framebuffer as a value and `Framebuffer` the object that is written in place.
 */
module Framebuffers {
  import opened Options
  import opened Rects

  type byte = i: int | 0 <= i < 256

  /** The four bytes of a pixel, `B, G, R, X` in the framebuffer. */
  datatype Pixel = Pixel(b0: byte, b1: byte, b2: byte, b3: byte)

  type Rows = seq<seq<Pixel>>

  const BLANK: Pixel := Pixel(0, 0, 0, 0)
  const LOG_LIMIT: nat := 512
  /** How many rectangles an answer holds before it is one bounding box. */
  const ANSWER_LIMIT: nat := 32

  type Channel = i: int | 0 <= i < 4

  /** Where each of the framebuffer's bytes is found in a pixel of the frame. */
  datatype ByteOrder = ByteOrder(b0: Channel, b1: Channel, b2: Channel, b3: Channel)

  const BGRX: ByteOrder := ByteOrder(0, 1, 2, 3)

  datatype FrameLayout = FrameLayout(flipped: bool, bytes: ByteOrder)

  /** A captured frame as the compositor wrote it: rows `stride` bytes apart. */
  datatype Frame = Frame(src: seq<byte>, stride: nat, layout: FrameLayout)

  /** Where a row starts, that many rows of this stride in: their product. */
  function RowOffset(rows: nat, stride: nat): nat {
    if rows == 0 then 0 else RowOffset(rows - 1, stride) + stride
  }

  lemma {:induction false} OffsetIsProduct(rows: nat, stride: nat)
    ensures RowOffset(rows, stride) == rows * stride
  {
    if rows > 0 {
      OffsetIsProduct(rows - 1, stride);
      assert rows * stride == (rows - 1) * stride + stride;
    }
  }

  /** A frame the size of the framebuffer: every row it has is in the buffer. */
  predicate Fits(f: Frame, w: u16, h: u16) {
    4 * w <= f.stride && RowOffset(h, f.stride) <= |f.src|
  }

  lemma {:induction false} RowFits(row: nat, h: nat, stride: nat, total: nat)
    requires row < h && RowOffset(h, stride) <= total
    ensures RowOffset(row, stride) + stride <= total
    decreases h
  {
    if row < h - 1 {
      RowFits(row, h - 1, stride, total);
    }
  }

  /** The row of the frame a row of the framebuffer is read from. */
  function SourceRow(f: Frame, h: u16, row: nat): nat
    requires row < h
  {
    if f.layout.flipped then h - 1 - row else row
  }

  /** The pixel at this byte of the frame, put into the framebuffer's own order. */
  function ReadPixel(f: Frame, at: nat): Pixel
    requires at + 4 <= |f.src|
  {
    var b := f.layout.bytes;
    Pixel(f.src[at + b.b0], f.src[at + b.b1], f.src[at + b.b2], f.src[at + b.b3])
  }

  /** Where a row of the framebuffer starts in the frame. */
  function RowStart(f: Frame, w: u16, h: u16, row: nat): (at: nat)
    requires Fits(f, w, h) && row < h
    ensures at + 4 * w <= |f.src|
  {
    RowFits(SourceRow(f, h, row), h, f.stride, |f.src|);
    RowOffset(SourceRow(f, h, row), f.stride)
  }

  /** The frame's pixel at (x, y) of the framebuffer. */
  function Straightened(f: Frame, w: u16, h: u16, x: nat, y: nat): Pixel
    requires Fits(f, w, h) && x < w && y < h
  {
    ReadPixel(f, RowStart(f, w, h, y) + 4 * x)
  }

  predicate Sized(rows: Rows, w: u16, h: u16) {
    |rows| == h && forall y :: 0 <= y < h ==> |rows[y]| == w
  }

  function Blank(w: u16, h: u16): (rows: Rows)
    ensures Sized(rows, w, h)
  {
    seq(h, y => seq(w, x => BLANK))
  }

  /** On whose account the framebuffer was last resized. */
  datatype ResizeOrigin = Server | Client(id: nat)

  /** A rectangle that changed, and the generation that changed it. */
  datatype Entry = Entry(generation: nat, rect: Rect)

  datatype Fb = Fb(
    width: u16,
    height: u16,
    pixels: Rows,
    generation: nat,
    sizeGeneration: nat,
    origin: ResizeOrigin,
    painted: bool,
    log: seq<Entry>)

  function NewFb(w: u16, h: u16): Fb {
    Fb(w, h, Blank(w, h), 1, 1, Server, false, [])
  }

  function Resized(fb: Fb, w: u16, h: u16, origin: ResizeOrigin): Fb {
    Fb(w, h, Blank(w, h), fb.generation + 1, fb.generation + 1, origin, false, [])
  }

  /** The damage inside the framebuffer. */
  function Noted(damage: seq<Rect>, w: u16, h: u16): seq<Rect> {
    if damage == [] then []
    else
      var r := damage[|damage| - 1].Clipped(w, h);
      Noted(damage[..|damage| - 1], w, h) + (if r.Some? then [r.value] else [])
  }

  /** The picture with the frame's pixels wherever a rectangle covers. */
  function Painted(rows: Rows, f: Frame, rects: seq<Rect>, w: u16, h: u16): (r: Rows)
    requires Sized(rows, w, h) && Fits(f, w, h)
    ensures Sized(r, w, h)
  {
    seq(h, y requires 0 <= y < h =>
      seq(w, x requires 0 <= x < w =>
        if CoveredBy(rects, x, y) then Straightened(f, w, h, x, y) else rows[y][x]))
  }

  function Entries(rects: seq<Rect>, generation: nat): seq<Entry> {
    seq(|rects|, i requires 0 <= i < |rects| => Entry(generation, rects[i]))
  }

  function Trimmed(log: seq<Entry>): seq<Entry> {
    if |log| > LOG_LIMIT then log[|log| - LOG_LIMIT..] else log
  }

  predicate WellSized(fb: Fb) {
    Sized(fb.pixels, fb.width, fb.height)
  }

  /** The framebuffer once the damaged parts of a frame are copied in. */
  function Applied(fb: Fb, f: Frame, damage: seq<Rect>): (r: Fb)
    requires WellSized(fb) && Fits(f, fb.width, fb.height)
    ensures WellSized(r)
  {
    var noted := Noted(damage, fb.width, fb.height);
    if noted == [] then fb
    else
      fb.(pixels := Painted(fb.pixels, f, noted, fb.width, fb.height),
          generation := fb.generation + 1,
          painted := true,
          log := Trimmed(fb.log + Entries(noted, fb.generation + 1)))
  }

  function RectsAfter(log: seq<Entry>, since: nat): seq<Rect> {
    if log == [] then []
    else
      var last := log[|log| - 1];
      RectsAfter(log[..|log| - 1], since) + (if last.generation > since then [last.rect] else [])
  }

  /** The answer to a session that last sent generation `since`: rectangles, or none to mean all. */
  ghost function DamageSince(fb: Fb, since: nat): Option<seq<Rect>> {
    if since < fb.sizeGeneration || since == 0 then None
    else if since >= fb.generation then Some([])
    else if fb.log != [] && fb.log[0].generation > since + 1 then None
    else Some(Merge(RectsAfter(fb.log, since), ANSWER_LIMIT))
  }

  /** The framebuffer, written in place by the compositor and read by the sessions. */
  class Framebuffer {
    var width: u16
    var height: u16
    var pixels: Rows
    var generation: nat
    var sizeGeneration: nat
    var resizeOrigin: ResizeOrigin
    var painted: bool
    var log: seq<Entry>

    ghost function Model(): Fb
      reads this
    {
      Fb(width, height, pixels, generation, sizeGeneration, resizeOrigin, painted, log)
    }

    ghost predicate Valid()
      reads this
    {
      WellSized(Model())
    }

    constructor (w: u16, h: u16)
      ensures Valid() && Model() == NewFb(w, h)
    {
      width, height, pixels := w, h, Blank(w, h);
      generation, sizeGeneration := 1, 1;
      resizeOrigin, painted, log := Server, false, [];
    }

    method Resize(w: u16, h: u16, origin: ResizeOrigin)
      modifies this
      ensures Valid() && Model() == Resized(old(Model()), w, h, origin)
    {
      width, height := w, h;
      pixels := Blank(w, h);
      generation := generation + 1;
      sizeGeneration := generation;
      resizeOrigin := origin;
      painted := false;
      log := [];
    }

    method Apply(f: Frame, damage: seq<Rect>)
      requires Valid() && Fits(f, width, height)
      modifies this
      ensures Valid() && Model() == Applied(old(Model()), f, damage)
    {
      hide Painted, Trimmed, Entries;
      var noted := CopyDamage(f, damage);
      if noted == [] {
        PaintedNone(old(pixels), f, width, height);
        return;
      }
      generation := generation + 1;
      painted := true;
      log := log + Entries(noted, generation);
      TrimLog();
    }

    /** The oldest entries dropped, one at a time. */
    method TrimLog()
      modifies `log
      ensures log == Trimmed(old(log))
    {
      while |log| > LOG_LIMIT
        invariant Trimmed(log) == Trimmed(old(log))
        decreases |log|
      {
        log := log[1..];
      }
    }

    /** The damage inside the framebuffer, each rectangle of it copied. */
    method CopyDamage(f: Frame, damage: seq<Rect>) returns (noted: seq<Rect>)
      requires Valid() && Fits(f, width, height)
      modifies `pixels
      ensures Valid() && noted == Noted(damage, width, height)
      ensures pixels == Painted(old(pixels), f, noted, width, height)
    {
      PaintedNone(pixels, f, width, height);
      hide Painted, Fits;
      noted := [];
      for i := 0 to |damage|
        invariant Sized(pixels, width, height)
        invariant noted == Noted(damage[..i], width, height)
        invariant pixels == Painted(old(pixels), f, noted, width, height)
      {
        assert damage[..i + 1][..i] == damage[..i];
        var clipped := damage[i].Clipped(width, height);
        if clipped.Some? {
          CopyRect(f, clipped.value);
          PaintedAgain(old(pixels), f, noted, clipped.value, width, height);
          noted := noted + [clipped.value];
        }
      }
      assert damage[..|damage|] == damage;
    }

    /** One rectangle copied row by row. */
    method CopyRect(f: Frame, r: Rect)
      requires Valid() && Fits(f, width, height) && r.Within(0, 0, width, height)
      modifies `pixels
      ensures Valid() && pixels == Painted(old(pixels), f, [r], width, height)
    {
      for row := r.y to r.Bottom()
        invariant PaintedTo(old(pixels), pixels, f, r, row, width, height)
      {
        var line := CopyRow(f, r, row);
        ghost var before := pixels;
        pixels := pixels[row := pixels[row][..r.x] + line + pixels[row][r.Right()..]];
        RowPainted(old(pixels), before, pixels, f, r, row, line, width, height);
      }
      RowsPainted(old(pixels), pixels, f, r, width, height);
    }

    /** One row of a rectangle, read from the row of the frame it is at. */
    method CopyRow(f: Frame, r: Rect, row: nat) returns (line: seq<Pixel>)
      requires Fits(f, width, height) && r.Within(0, 0, width, height) && r.y <= row < r.Bottom()
      ensures IsLine(f, width, height, r, row, line)
    {
      var last := height - 1;
      var sourceRow := if f.layout.flipped then last - row else row;
      OffsetIsProduct(sourceRow, f.stride);
      ghost var from := RowStart(f, width, height, row);
      var start := sourceRow * f.stride;
      assert start == from;
      line := ReadLine(f, start + 4 * r.x, r.width);
    }

    /** Pixels read from a byte of the frame on: as they are where the frame is in the
        framebuffer's own order, byte by byte where it is not. */
    method ReadLine(f: Frame, start: nat, count: nat) returns (line: seq<Pixel>)
      requires start + 4 * count <= |f.src|
      ensures |line| == count && forall k :: 0 <= k < count ==> line[k] == ReadPixel(f, start + 4 * k)
    {
      var b := f.layout.bytes;
      line := [];
      for i := 0 to count
        invariant |line| == i
        invariant forall k :: 0 <= k < i ==> line[k] == ReadPixel(f, start + 4 * k)
      {
        var at := start + 4 * i;
        var pixel;
        if b == BGRX {
          pixel := Pixel(f.src[at], f.src[at + 1], f.src[at + 2], f.src[at + 3]);
        } else {
          pixel := Pixel(f.src[at + b.b0], f.src[at + b.b1], f.src[at + b.b2], f.src[at + b.b3]);
        }
        assert pixel == ReadPixel(f, start + 4 * i);
        line := line + [pixel];
      }
    }

    /** What a session that last sent generation `since` has to send. */
    method DamageAfter(since: nat) returns (damage: Option<seq<Rect>>)
      ensures damage == DamageSince(Model(), since)
    {
      if since < sizeGeneration || since == 0 {
        return None;
      }
      if since >= generation {
        return Some([]);
      }
      if log != [] && log[0].generation > since + 1 {
        return None;
      }
      var rects := [];
      for i := 0 to |log|
        invariant rects == RectsAfter(log[..i], since)
      {
        assert log[..i + 1][..i] == log[..i];
        if log[i].generation > since {
          rects := rects + [log[i].rect];
        }
      }
      assert log[..|log|] == log;
      var merged := MergeRects(rects, ANSWER_LIMIT);
      damage := Some(merged);
    }
  }

  /** The pixels of one row of a rectangle. */
  predicate IsLine(f: Frame, w: u16, h: u16, r: Rect, row: nat, line: seq<Pixel>)
    requires Fits(f, w, h) && r.Within(0, 0, w, h) && r.y <= row < r.Bottom()
  {
    |line| == r.width
    && forall k :: 0 <= k < r.width ==> line[k] == Straightened(f, w, h, r.x + k, row)
  }

  /** A picture with a rectangle's rows above `row` painted. */
  ghost predicate PaintedTo(before: Rows, rows: Rows, f: Frame, r: Rect, row: int, w: u16, h: u16)
    requires Fits(f, w, h) && Sized(before, w, h)
  {
    && Sized(rows, w, h)
    && forall x, y :: 0 <= x < w && 0 <= y < h ==>
         rows[y][x] == if r.Covers(x, y) && y < row then Straightened(f, w, h, x, y) else before[y][x]
  }

  lemma RowPainted(start: Rows, before: Rows, after: Rows, f: Frame, r: Rect, row: nat, line: seq<Pixel>,
                   w: u16, h: u16)
    requires Fits(f, w, h) && Sized(start, w, h) && r.Within(0, 0, w, h) && r.y <= row < r.Bottom()
    requires PaintedTo(start, before, f, r, row, w, h) && IsLine(f, w, h, r, row, line)
    requires after == before[row := before[row][..r.x] + line + before[row][r.Right()..]]
    ensures PaintedTo(start, after, f, r, row + 1, w, h)
  {
    hide Straightened;
    assert |after[row]| == w;
    forall x, y | 0 <= x < w && 0 <= y < h
      ensures after[y][x] == if r.Covers(x, y) && y < row + 1 then Straightened(f, w, h, x, y) else start[y][x]
    {
      if y == row && r.x <= x < r.Right() {
        assert after[y][x] == line[x - r.x] == Straightened(f, w, h, r.x + (x - r.x), row);
      } else {
        assert after[y][x] == before[y][x];
      }
    }
  }

  lemma RowsPainted(before: Rows, rows: Rows, f: Frame, r: Rect, w: u16, h: u16)
    requires Fits(f, w, h) && Sized(before, w, h)
    requires PaintedTo(before, rows, f, r, r.Bottom(), w, h)
    ensures rows == Painted(before, f, [r], w, h)
  {
    hide Straightened;
    var want := Painted(before, f, [r], w, h);
    forall y | 0 <= y < h ensures rows[y] == want[y] {
      forall x | 0 <= x < w ensures rows[y][x] == want[y][x] {
        CoveredByMore([], r, x, y);
      }
    }
  }

  lemma PaintedNone(rows: Rows, f: Frame, w: u16, h: u16)
    requires Sized(rows, w, h) && Fits(f, w, h)
    ensures Painted(rows, f, [], w, h) == rows
  {
    var r := Painted(rows, f, [], w, h);
    forall y | 0 <= y < h ensures r[y] == rows[y] {
      assert forall x :: 0 <= x < w ==> r[y][x] == rows[y][x];
    }
  }

  /** A rectangle painted over a picture already painted is the two painted together. */
  lemma PaintedAgain(rows: Rows, f: Frame, rects: seq<Rect>, r: Rect, w: u16, h: u16)
    requires Sized(rows, w, h) && Fits(f, w, h)
    ensures Painted(Painted(rows, f, rects, w, h), f, [r], w, h) == Painted(rows, f, rects + [r], w, h)
  {
    var a := Painted(Painted(rows, f, rects, w, h), f, [r], w, h);
    var b := Painted(rows, f, rects + [r], w, h);
    forall y | 0 <= y < h ensures a[y] == b[y] {
      forall x | 0 <= x < w ensures a[y][x] == b[y][x] {
        CoveredByMore(rects, r, x, y);
      }
    }
  }

  // ----- what is copied in

  /** A pixel is the frame's where some rectangle reported covers it, and stands as it was
      everywhere else. */
  lemma AppliedAt(fb: Fb, f: Frame, damage: seq<Rect>, x: nat, y: nat)
    requires WellSized(fb) && Fits(f, fb.width, fb.height) && x < fb.width && y < fb.height
    ensures Applied(fb, f, damage).pixels[y][x]
         == if CoveredBy(damage, x, y) then Straightened(f, fb.width, fb.height, x, y) else fb.pixels[y][x]
  {
    NotedCovers(damage, fb.width, fb.height, x, y);
  }

  lemma {:induction false} NotedCovers(damage: seq<Rect>, w: u16, h: u16, x: nat, y: nat)
    requires x < w && y < h
    ensures CoveredBy(Noted(damage, w, h), x, y) <==> CoveredBy(damage, x, y)
  {
    if damage == [] {
    } else {
      var front, last := damage[..|damage| - 1], damage[|damage| - 1];
      NotedCovers(front, w, h, x, y);
      assert front + [last] == damage;
      CoveredByMore(front, last, x, y);
      if last.Clipped(w, h).Some? {
        CoveredByMore(Noted(front, w, h), last.Clipped(w, h).value, x, y);
      } else {
        assert Noted(damage, w, h) == Noted(front, w, h);
      }
    }
  }

  lemma {:induction false} NotedInside(damage: seq<Rect>, w: u16, h: u16)
    ensures AllWithin(Noted(damage, w, h), 0, 0, w, h) && NoneEmpty(Noted(damage, w, h))
  {
    if damage == [] {
    } else {
      NotedInside(damage[..|damage| - 1], w, h);
    }
  }
}
