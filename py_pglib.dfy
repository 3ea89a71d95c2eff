/** The Python prototype's pygame wrapper (py/pglib.py): the `Screen`
    coordinate helpers, which map first-quadrant coordinates (y up) to
    pygame's screen coordinates (y down), the text-centring offset, the
    caption and the frame counter of `loop`. Drawing itself is not modelled. */
module PyPglib {
  import opened Numeric
  import opened Display

  /** A `Rectangle`: origin and dimensions. */
  datatype Rectangle = Rectangle(x: real, y: real, w: real, h: real)

  /** `f'{title} {version}'`. */
  function Caption(title: string, version: string): (c: string)
    ensures |c| == |title| + 1 + |version|
    ensures c[..|title|] == title && c[|title|] == ' ' && c[|title| + 1..] == version
  {
    title + " " + version
  }

  /** `event.type == QUIT or event.type == KEYDOWN and event.key == K_ESCAPE`. */
  predicate Stops(e: Event) {
    e == Quit || e == KeyDown(Escape)
  }

  /** The position `center_text` hands to `text`: half the text width to the
      left and half its height up, both halves rounded down (`// 2`). */
  function CenterTextLocation(coord: (int, int), size: (int, int)): (loc: (int, int))
    ensures 0 <= size.0 - 2 * (coord.0 - loc.0) <= 1
    ensures 0 <= size.1 - 2 * (loc.1 - coord.1) <= 1
  {
    (coord.0 + (size.0 / 2) * -1, coord.1 + (size.1 / 2) * 1)
  }

  /** `Screen`: its size is fixed at construction; `frame` counts the frames. */
  class Screen {
    const width: int
    const height: int
    const flags: set<Flag>
    const caption: string
    var frame: int

    /** `Screen(title, version, width, aspect_ratio)`, with `argv` for
        `sys.argv`: `HEIGHT = int(width / aspect_ratio)`. */
    constructor(title: string, version: string, width: int, aspectRatio: real, argv: seq<string>)
      requires aspectRatio != 0.0
      ensures this.width == width && height == Trunc(width as real / aspectRatio)
      ensures FlagsFor(argv, flags)
      ensures caption == Caption(title, version)
      ensures frame == 0
    {
      var f := SelectFlags(argv);
      this.width := width;
      height := Trunc(width as real / aspectRatio);
      flags := f;
      caption := Caption(title, version);
      frame := 0;
    }

    /** `q1_transform_coordinate`: `(int(x), int(HEIGHT - y))`, so an
        on-screen point lands on the pixel holding its flipped position. */
    function Q1Point(p: (real, real)): (t: (int, int))
      reads this
      ensures 0.0 <= p.0 ==> t.0 as real <= p.0 < t.0 as real + 1.0
      ensures p.1 <= height as real ==> t.1 as real <= height as real - p.1 < t.1 as real + 1.0
    {
      (Trunc(p.0), Trunc(height as real - p.1))
    }

    /** On integer coordinates the point transform is its own inverse. */
    lemma Q1PointInvolution(x: int, y: int)
      ensures var t := Q1Point((x as real, y as real));
              Q1Point((t.0 as real, t.1 as real)) == (x, y)
    {
      assert Trunc(x as real) == x;
      assert Trunc(height as real - y as real) == height - y;
      assert Trunc((height - y) as real) == height - y;
      assert Trunc(height as real - (height - y) as real) == y;
    }

    /** `_q1_transform` of a list: the points transformed one by one, in order. */
    method Q1Points(coords: seq<(real, real)>) returns (transformed: seq<(int, int)>)
      ensures |transformed| == |coords|
      ensures forall i :: 0 <= i < |coords| ==> transformed[i] == Q1Point(coords[i])
    {
      transformed := [];
      for i := 0 to |coords|
        invariant |transformed| == i
        invariant forall k :: 0 <= k < i ==> transformed[k] == Q1Point(coords[k])
      {
        transformed := transformed + [Q1Point(coords[i])];
      }
    }

    /** `_q1_transform_rect`: the origin moves to the flipped top edge, the
        dimensions are kept. */
    function Q1Rect(r: Rectangle): (t: Rectangle)
      reads this
      ensures t.x == r.x && t.w == r.w && t.h == r.h
      ensures t.y + t.h == height as real - r.y
    {
      Rectangle(r.x, height as real - r.y - r.h, r.w, r.h)
    }

    /** The rectangle transform is its own inverse. */
    lemma Q1RectInvolution(r: Rectangle)
      ensures Q1Rect(Q1Rect(r)) == r
    {
    }

    /** The text box that `center_text` draws is centred on the transformed
        point, to within half a pixel on each axis: its left and top edges
        are `x - w // 2` and `HEIGHT - (y + h // 2)`. */
    lemma CenterTextCentres(coord: (int, int), size: (int, int))
      ensures var loc := CenterTextLocation(coord, size);
              var top := Q1Point((loc.0 as real, loc.1 as real));
              && 2 * top.0 + size.0 - 2 * coord.0 in {0, 1}
              && 2 * top.1 + size.1 - 2 * (height - coord.1) in {0, 1}
    {
      var loc := CenterTextLocation(coord, size);
      assert Trunc(loc.0 as real) == loc.0;
      assert Trunc(height as real - loc.1 as real) == height - loc.1;
    }

    /** `loop`: stops, without counting the frame, at the first QUIT or ESC
        key-down event; otherwise counts one more frame. */
    method Loop(events: seq<Event>) returns (running: bool)
      modifies this`frame
      ensures running <==> forall i :: 0 <= i < |events| ==> !Stops(events[i])
      ensures frame == if running then old(frame) + 1 else old(frame)
    {
      for i := 0 to |events|
        invariant forall k :: 0 <= k < i ==> !Stops(events[k])
      {
        if events[i] == Quit || events[i] == KeyDown(Escape) {
          return false;
        }
      }
      frame := frame + 1;
      return true;
    }
  }
}
