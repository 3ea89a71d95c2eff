/** The C++ port's companion pygame wrapper (pglib.py): the `Screen`
    coordinate helpers, the on-screen test, the caption and the frame counter
    of `loop`. Drawing itself is not modelled. */
module Pglib {
  import opened Numeric
  import opened Display

  /** The argument of `q1_transform`: one `[x, y]` point, or a list of them
      (told apart by whether `location[0]` is a list). */
  datatype Location = Point(x: real, y: real) | Points(points: seq<(real, real)>)

  /** The result of `q1_transform`: one point, a list of points, or the
      IndexError that `location[0]` raises on an empty list. */
  datatype Transformed = OnePoint(p: (int, int)) | ManyPoints(ps: seq<(int, int)>) | IndexError

  /** The caption set by `__init__`: a non-empty version first becomes
      `" v. " + version`, and the caption is `f'{title} {version}'`, so a
      versioned caption has two spaces before the `v.`. */
  function Caption(title: string, version: string): (c: string)
    ensures |c| > |title| && c[..|title|] == title && c[|title|] == ' '
    ensures version == "" ==> c == title + " "
    ensures version != "" ==> c[|title| + 1..] == " v. " + version
  {
    var version' := if version != "" then " v. " + version else version;
    title + " " + version'
  }

  /** `event.type == KEYDOWN and event.key == K_ESCAPE`; QUIT is ignored. */
  predicate Stops(e: Event) {
    e == KeyDown(Escape)
  }

  /** Point q lies in the closed square of half-side `radius` around `centre`. */
  predicate WithinSquare(q: (real, real), centre: (real, real), radius: real) {
    && centre.0 - radius <= q.0 <= centre.0 + radius
    && centre.1 - radius <= q.1 <= centre.1 + radius
  }

  /** The midpoint of the overlap of `[c - r, c + r]` with `[0, w]`. */
  function Middle(c: real, r: real, w: real): real {
    ((if c - r > 0.0 then c - r else 0.0) + (if c + r < w then c + r else w)) / 2.0
  }

  /** `Screen`: its size is fixed at construction; `frame` counts the frames. */
  class Screen {
    const width: int
    const height: int
    const flags: set<Flag>
    const caption: string
    var frame: int

    /** `Screen(dims, title, version)`, with `argv` for `sys.argv`. */
    constructor(width: int, height: int, title: string, version: string, argv: seq<string>)
      ensures this.width == width && this.height == height
      ensures FlagsFor(argv, flags)
      ensures caption == Caption(title, version)
      ensures frame == 0
    {
      var f := SelectFlags(argv);
      this.width := width;
      this.height := height;
      flags := f;
      caption := Caption(title, version);
      frame := 0;
    }

    /** `q1_transform_coordinate`: `[int(x), HEIGHT - int(y)]`, truncating
        before the subtraction, so for y >= 0 the flipped y is rounded up,
        unlike the Python prototype's `int(HEIGHT - y)`. */
    function Q1Point(p: (real, real)): (t: (int, int))
      reads this
      ensures 0.0 <= p.0 ==> t.0 as real <= p.0 < t.0 as real + 1.0
      ensures 0.0 <= p.1 ==> height as real - p.1 <= t.1 as real < height as real - p.1 + 1.0
    {
      (Trunc(p.0), height - Trunc(p.1))
    }

    /** Applied to its own output, the point transform gives back the input
        truncated toward zero; on integer points it is its own inverse. */
    lemma Q1PointTwice(p: (real, real))
      ensures var t := Q1Point(p);
              Q1Point((t.0 as real, t.1 as real)) == (Trunc(p.0), Trunc(p.1))
    {
      var t := Q1Point(p);
      assert Trunc(t.0 as real) == t.0;
      assert Trunc(t.1 as real) == t.1;
    }

    /** `q1_transform`: the list case transforms each point in order. */
    method Q1Transform(location: Location) returns (r: Transformed)
      ensures location.Point? ==> r == OnePoint(Q1Point((location.x, location.y)))
      ensures location.Points? && location.points == [] ==> r == IndexError
      ensures location.Points? && location.points != [] ==>
                && r.ManyPoints? && |r.ps| == |location.points|
                && forall i :: 0 <= i < |location.points| ==> r.ps[i] == Q1Point(location.points[i])
    {
      if location.Point? {
        return OnePoint(Q1Point((location.x, location.y)));
      }
      if location.points == [] {
        return IndexError;
      }
      var transformed: seq<(int, int)> := [];
      for i := 0 to |location.points|
        invariant |transformed| == i
        invariant forall k :: 0 <= k < i ==> transformed[k] == Q1Point(location.points[k])
      {
        transformed := transformed + [Q1Point(location.points[i])];
      }
      r := ManyPoints(transformed);
    }

    /** `q1_transform_rect(location, dims)`: `[x, HEIGHT - y - h, w, h]`. */
    function Q1Rect(location: (real, real), dims: (real, real)): (r: (real, real, real, real))
      reads this
      ensures r.0 == location.0 && r.2 == dims.0 && r.3 == dims.1
      ensures r.1 + r.3 == height as real - location.1
    {
      (location.0, height as real - location.1 - dims.1, dims.0, dims.1)
    }

    /** Transforming the transformed rectangle gives back the original. */
    lemma Q1RectInvolution(location: (real, real), dims: (real, real))
      ensures var r := Q1Rect(location, dims);
              Q1Rect((r.0, r.1), (r.2, r.3)) == (location.0, location.1, dims.0, dims.1)
    {
    }

    /** Point q lies inside the open screen rectangle. */
    predicate Inside(q: (real, real))
      reads this
    {
      0.0 < q.0 < width as real && 0.0 < q.1 < height as real
    }

    /** `is_onscreen(location, radius)`: the square of half-side `radius`
        around `location` reaches into the open screen. It never rejects a
        square that has a point on the screen. */
    predicate IsOnScreen(location: (real, real), radius: real): (b: bool)
      reads this
      ensures (exists q :: WithinSquare(q, location, radius) && Inside(q)) ==> b
    {
      && location.0 + radius > 0.0 && location.0 - radius < width as real
      && location.1 + radius > 0.0 && location.1 - radius < height as real
    }

    /** For a non-negative radius on a non-empty screen the test is exact:
        it holds only when some point of the square is on the screen. */
    lemma OnScreenMeetsScreen(location: (real, real), radius: real)
      requires radius >= 0.0 && width > 0 && height > 0
      ensures IsOnScreen(location, radius) <==> exists q :: WithinSquare(q, location, radius) && Inside(q)
    {
      if IsOnScreen(location, radius) {
        var q := (Middle(location.0, radius, width as real), Middle(location.1, radius, height as real));
        assert WithinSquare(q, location, radius) && Inside(q);
      }
    }

    /** With the default radius 0 the test is strict on all four edges. */
    lemma OnScreenPoint(location: (real, real))
      ensures IsOnScreen(location, 0.0) <==>
                0.0 < location.0 < width as real && 0.0 < location.1 < height as real
    {
    }

    /** A larger radius never turns a visible disc invisible. */
    lemma OnScreenMonotone(location: (real, real), r: real, r': real)
      requires r <= r' && IsOnScreen(location, r)
      ensures IsOnScreen(location, r')
    {
    }

    /** `loop`: stops, without counting the frame, at the first ESC key-down
        event; otherwise counts one more frame. */
    method Loop(events: seq<Event>) returns (running: bool)
      modifies this`frame
      ensures running <==> forall i :: 0 <= i < |events| ==> !Stops(events[i])
      ensures frame == if running then old(frame) + 1 else old(frame)
    {
      for i := 0 to |events|
        invariant forall k :: 0 <= k < i ==> !Stops(events[k])
      {
        if events[i] == KeyDown(Escape) {
          return false;
        }
      }
      frame := frame + 1;
      return true;
    }
  }
}
