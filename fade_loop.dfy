/**
  The fade animation of fade_loop.py. A 5x5 image is a grid of pixel
  brightnesses 0..9, indexed as grid[y][x]; its digits also appear, row by
  row, in the image's text form, which is where the brightest pixel is found.
 */
module FadeLoop {
  import opened Wrappers
  import opened Ints

  const SIZE: int := 5
  /** The image is repeated this many times at the end of the animation. */
  const HOLD_FRAMES: int := 5

  type Grid = seq<seq<int>>

  /** A 5x5 image with pixels in 0..9. */
  ghost predicate ValidImage(g: Grid)
  {
    |g| == SIZE && forall y :: 0 <= y < SIZE ==> |g[y]| == SIZE && forall x :: 0 <= x < SIZE ==> 0 <= g[y][x] <= 9
  }

  predicate IsDigit(c: char)
  {
    '0' <= c <= '9'
  }

  function DigitValue(c: char): int
    requires IsDigit(c)
  {
    c as int - '0' as int
  }

  function DigitChar(d: int): (c: char)
    requires 0 <= d <= 9
    ensures IsDigit(c) && DigitValue(c) == d
  {
    ('0' as int + d) as char
  }

  /** The brightest digit found in `s`, or None when `s` has no digit. */
  method FindBrightestPixel(s: string) returns (brightest: Option<int>)
    ensures brightest.None? <==> forall i :: 0 <= i < |s| ==> !IsDigit(s[i])
    ensures brightest.Some? ==> exists i :: 0 <= i < |s| && IsDigit(s[i]) && DigitValue(s[i]) == brightest.value
    ensures brightest.Some? ==> forall i :: 0 <= i < |s| && IsDigit(s[i]) ==> DigitValue(s[i]) <= brightest.value
  {
    brightest := None;
    for n := 0 to |s|
      invariant brightest.None? <==> forall i :: 0 <= i < n ==> !IsDigit(s[i])
      invariant brightest.Some? ==> exists i :: 0 <= i < n && IsDigit(s[i]) && DigitValue(s[i]) == brightest.value
      invariant brightest.Some? ==> forall i :: 0 <= i < n && IsDigit(s[i]) ==> DigitValue(s[i]) <= brightest.value
    {
      var c := s[n];
      if IsDigit(c) {
        if brightest.None? || DigitValue(c) > brightest.value {
          brightest := Some(DigitValue(c));
        }
      }
    }
  }

  /** The digits of one row. */
  function RowText(row: seq<int>): (t: string)
    requires forall x :: 0 <= x < |row| ==> 0 <= row[x] <= 9
    ensures |t| == |row| && forall x :: 0 <= x < |row| ==> t[x] == DigitChar(row[x])
  {
    seq(|row|, x requires 0 <= x < |row| => DigitChar(row[x]))
  }

  /** The text of an image: each row's digits followed by ':'. */
  function Render(rows: Grid): string
    requires forall y :: 0 <= y < |rows| ==> forall x :: 0 <= x < |rows[y]| ==> 0 <= rows[y][x] <= 9
    decreases |rows|
  {
    if rows == [] then [] else RowText(rows[0]) + [':'] + Render(rows[1..])
  }

  /** Every pixel's digit occurs in the text. */
  lemma {:induction false} RenderHasPixel(rows: Grid, y: int, x: int)
    requires forall y :: 0 <= y < |rows| ==> forall x :: 0 <= x < |rows[y]| ==> 0 <= rows[y][x] <= 9
    requires 0 <= y < |rows| && 0 <= x < |rows[y]|
    ensures exists i :: 0 <= i < |Render(rows)| && Render(rows)[i] == DigitChar(rows[y][x])
    decreases |rows|
  {
    var head := RowText(rows[0]) + [':'];
    assert Render(rows) == head + Render(rows[1..]);
    if y == 0 {
      assert Render(rows)[x] == DigitChar(rows[0][x]);
    } else {
      RenderHasPixel(rows[1..], y - 1, x);
      var i :| 0 <= i < |Render(rows[1..])| && Render(rows[1..])[i] == DigitChar(rows[y][x]);
      assert Render(rows)[|head| + i] == DigitChar(rows[y][x]);
    }
  }

  /** Every digit in the text is some pixel's value. */
  lemma {:induction false} RenderDigitIsPixel(rows: Grid, i: int)
    requires forall y :: 0 <= y < |rows| ==> forall x :: 0 <= x < |rows[y]| ==> 0 <= rows[y][x] <= 9
    requires 0 <= i < |Render(rows)| && IsDigit(Render(rows)[i])
    ensures exists y, x :: 0 <= y < |rows| && 0 <= x < |rows[y]| && rows[y][x] == DigitValue(Render(rows)[i])
    decreases |rows|
  {
    var head := RowText(rows[0]) + [':'];
    assert Render(rows) == head + Render(rows[1..]);
    if i < |rows[0]| {
      assert rows[0][i] == DigitValue(Render(rows)[i]);
    } else {
      assert i != |rows[0]|;
      RenderDigitIsPixel(rows[1..], i - |head|);
      var y, x :| 0 <= y < |rows| - 1 && 0 <= x < |rows[y + 1]| && rows[1..][y][x] == DigitValue(Render(rows[1..])[i - |head|]);
      assert rows[y + 1][x] == DigitValue(Render(rows)[i]);
    }
  }

  /** The brightest pixel of an image. */
  ghost predicate IsBrightest(g: Grid, n: int)
    requires ValidImage(g)
  {
    (exists y, x :: 0 <= y < SIZE && 0 <= x < SIZE && g[y][x] == n)
    && forall y, x :: 0 <= y < SIZE && 0 <= x < SIZE ==> g[y][x] <= n
  }

  /** The largest element of a non-empty sequence. */
  function SeqMax(s: seq<int>): (m: int)
    requires |s| > 0
    ensures exists i :: 0 <= i < |s| && s[i] == m
    ensures forall i :: 0 <= i < |s| ==> s[i] <= m
    decreases |s|
  {
    if |s| == 1 then s[0] else Max(s[0], SeqMax(s[1..]))
  }

  /** The brightest pixel of an image: the largest of the row maxima. */
  function MaxPixel(g: Grid): (n: int)
    requires ValidImage(g)
    ensures IsBrightest(g, n)
  {
    var rowMax := seq(SIZE, y requires 0 <= y < SIZE => SeqMax(g[y]));
    var n := SeqMax(rowMax);
    assert exists y, x :: 0 <= y < SIZE && 0 <= x < SIZE && g[y][x] == n by {
      var y :| 0 <= y < SIZE && rowMax[y] == n;
      var x :| 0 <= x < SIZE && g[y][x] == rowMax[y];
    }
    assert forall y, x :: 0 <= y < SIZE && 0 <= x < SIZE ==> g[y][x] <= n by {
      forall y, x | 0 <= y < SIZE && 0 <= x < SIZE ensures g[y][x] <= n {
        assert g[y][x] <= rowMax[y];
      }
    }
    n
  }

  /** Frame `i` of the fade: every pixel dimmed by `i`, but not below 0. */
  function Fade(g: Grid, i: int): (f: Grid)
    requires ValidImage(g)
  {
    seq(SIZE, y requires 0 <= y < SIZE => seq(SIZE, x requires 0 <= x < SIZE => Max(g[y][x] - i, 0)))
  }

  function Reversed<T>(s: seq<T>): (r: seq<T>)
    ensures |r| == |s| && forall k :: 0 <= k < |s| ==> r[k] == s[|s| - 1 - k]
  {
    seq(|s|, k requires 0 <= k < |s| => s[|s| - 1 - k])
  }

  /** Frame 0 is the image itself. */
  lemma FadeZero(g: Grid)
    requires ValidImage(g)
    ensures Fade(g, 0) == g
  {
    forall y | 0 <= y < SIZE ensures Fade(g, 0)[y] == g[y] {
      forall x | 0 <= x < SIZE ensures Fade(g, 0)[y][x] == g[y][x] {
      }
    }
  }

  /** Fading by at least the brightest pixel gives an all-dark frame. */
  lemma FadeToDark(g: Grid, n: int)
    requires ValidImage(g) && forall y, x :: 0 <= y < SIZE && 0 <= x < SIZE ==> g[y][x] <= n
    ensures Fade(g, n) == seq(SIZE, _ => seq(SIZE, _ => 0))
  {
    var dark := seq(SIZE, _ => seq(SIZE, _ => 0));
    forall y | 0 <= y < SIZE ensures Fade(g, n)[y] == dark[y] {
      forall x | 0 <= x < SIZE ensures Fade(g, n)[y][x] == dark[y][x] {
      }
    }
  }

  /** Fade frames are 5x5 and never negative, and pixels do not brighten from frame `i` to frame `i + 1`. */
  lemma FadeBounds(g: Grid, i: int)
    requires ValidImage(g) && 0 <= i
    ensures var f, f' := Fade(g, i), Fade(g, i + 1);
      |f| == SIZE && forall y :: 0 <= y < SIZE ==> |f[y]| == SIZE && forall x :: 0 <= x < SIZE ==>
        0 <= f'[y][x] <= f[y][x] <= g[y][x]
  {
  }

  /**
    The fade animation: frames 0..n dimming by one each (n the brightest
    pixel), the same frames in reverse, then the image five times.
   */
  method FadeLoopAnim(orig: Grid) returns (anim: seq<Grid>)
    requires ValidImage(orig)
    ensures var n := MaxPixel(orig);
      |anim| == 2 * (n + 1) + HOLD_FRAMES
      && (forall i :: 0 <= i <= n ==> anim[i] == Fade(orig, i))
      && (forall k :: n + 1 <= k < 2 * (n + 1) ==> anim[k] == anim[2 * n + 1 - k])
      && (forall k :: 2 * (n + 1) <= k < |anim| ==> anim[k] == orig)
  {
    var text := Render(orig);
    var found := FindBrightestPixel(text);
    BrightestOfRender(orig, text, found);
    var animLen := found.value;
    BrightestUnique(orig, animLen, MaxPixel(orig));
    anim := [];
    for i := 0 to animLen + 1
      invariant |anim| == i
      invariant forall j :: 0 <= j < i ==> anim[j] == Fade(orig, j)
    {
      var frame := FadeFrame(orig, i);
      anim := anim + [frame];
    }
    anim := anim + Reversed(anim) + seq(HOLD_FRAMES, _ => orig);
  }

  /** Fills one fade frame cell by cell, x outer and y inner. */
  method FadeFrame(orig: Grid, i: int) returns (frame: Grid)
    requires ValidImage(orig)
    ensures frame == Fade(orig, i)
  {
    frame := seq(SIZE, _ => seq(SIZE, _ => 0));
    for x := 0 to SIZE
      invariant |frame| == SIZE && forall y :: 0 <= y < SIZE ==> |frame[y]| == SIZE
      invariant forall y, x' :: 0 <= y < SIZE && 0 <= x' < x ==> frame[y][x'] == Max(orig[y][x'] - i, 0)
    {
      for y := 0 to SIZE
        invariant |frame| == SIZE && forall y :: 0 <= y < SIZE ==> |frame[y]| == SIZE
        invariant forall y', x' :: 0 <= y' < SIZE && 0 <= x' < x ==> frame[y'][x'] == Max(orig[y'][x'] - i, 0)
        invariant forall y' :: 0 <= y' < y ==> frame[y'][x] == Max(orig[y'][x] - i, 0)
      {
        var newPixel := orig[y][x] - i;
        frame := frame[y := frame[y][x := Max(newPixel, 0)]];
      }
    }
    forall y | 0 <= y < SIZE ensures frame[y] == Fade(orig, i)[y] {
    }
  }

  /** An image has one brightest value. */
  lemma BrightestUnique(g: Grid, n: int, n': int)
    requires ValidImage(g) && IsBrightest(g, n) && IsBrightest(g, n')
    ensures n == n'
  {
    var y, x :| 0 <= y < SIZE && 0 <= x < SIZE && g[y][x] == n;
    var y', x' :| 0 <= y' < SIZE && 0 <= x' < SIZE && g[y'][x'] == n';
  }

  /** The text search finds exactly the brightest pixel of the image. */
  lemma BrightestOfRender(g: Grid, s: string, found: Option<int>)
    requires ValidImage(g) && s == Render(g)
    requires
      && (found.None? <==> forall i :: 0 <= i < |s| ==> !IsDigit(s[i]))
      && (found.Some? ==> exists i :: 0 <= i < |s| && IsDigit(s[i]) && DigitValue(s[i]) == found.value)
      && (found.Some? ==> forall i :: 0 <= i < |s| && IsDigit(s[i]) ==> DigitValue(s[i]) <= found.value)
    ensures found.Some? && IsBrightest(g, found.value)
  {
    RenderHasPixel(g, 0, 0);
    assert found.Some?;
    var i :| 0 <= i < |s| && IsDigit(s[i]) && DigitValue(s[i]) == found.value;
    RenderDigitIsPixel(g, i);
    forall y, x | 0 <= y < SIZE && 0 <= x < SIZE ensures g[y][x] <= found.value {
      RenderHasPixel(g, y, x);
    }
  }
}
