/** The arithmetic of the rotator's coordinator (rotator.js, `my.update`):
    a horizontal drag delta is folded into a rotation amount in [0, 1], the
    amount picks a frame index, and the displayed frame follows that index
    only when the frame is loaded.  Amounts are exact reals here; the
    source's IEEE-754 doubles are not modelled. */
module Rotation {
  import opened Wrappers

  function Abs(x: int): nat { if x < 0 then -x else x }

  /** JavaScript's truncating integer quotient: `|a| / |b|` with the sign of
      `a / b`. */
  function JsQuot(a: int, b: int): int
    requires b != 0
  {
    var q := Abs(a) / Abs(b);
    if (a >= 0) == (b > 0) then q else -q
  }

  /** JavaScript's `a % b` on integers: what is left of `a` after the
      truncated quotient, so it carries the sign of the dividend and is
      smaller than the divisor in magnitude. */
  function JsRem(a: int, b: int): (r: int)
    requires b != 0
    ensures a == JsQuot(a, b) * b + r
    ensures Abs(r) < Abs(b) && Abs(r) <= Abs(a)
    ensures a >= 0 ==> r >= 0
    ensures a <= 0 ==> r <= 0
  {
    var m := Abs(a) % Abs(b);
    QuotRem(a, b);
    ModBounds(Abs(a), Abs(b));
    if a >= 0 then m else -m
  }

  lemma ModBounds(x: nat, y: nat)
    requires y > 0
    ensures x % y < y && x % y <= x
  {
    var q := x / y;
    assert x == y * q + x % y;
    assert q >= 0;
    assert y * q >= 0;
  }

  lemma QuotRem(a: int, b: int)
    requires b != 0
    ensures a == JsQuot(a, b) * b + (if a >= 0 then 1 else -1) * (Abs(a) % Abs(b))
  {
    var q, m := Abs(a) / Abs(b), Abs(a) % Abs(b);
    assert Abs(a) == q * Abs(b) + m;
    if a >= 0 && b < 0 {
      assert q * Abs(b) == (-q) * b;
    } else if a < 0 && b > 0 {
      assert a == (-q) * b - m;
    } else if a < 0 && b < 0 {
      assert q * Abs(b) == -(q * b);
    }
  }

  /** Sign, magnitude and the quotient relation leave no other choice: the
      contract of `JsRem` pins JavaScript's `%` down completely. */
  lemma JsRemUnique(a: int, b: int, q: int, r: int)
    requires b != 0
    requires a == q * b + r
    requires Abs(r) < Abs(b)
    requires a > 0 ==> r >= 0
    requires a < 0 ==> r <= 0
    ensures r == JsRem(a, b)
  {
    var s, qs := JsRem(a, b), JsQuot(a, b);
    assert a == qs * b + s;
    var k := q - qs;
    assert s - r == k * b by { SubMul(q, qs, b); }
    assert Abs(s - r) < Abs(b);
    MulMagnitude(k, b);
  }

  lemma SubMul(x: int, y: int, b: int)
    ensures x * b - y * b == (x - y) * b
  {
  }

  lemma MulNonneg(x: int, y: int)
    requires x >= 0 && y >= 0
    ensures x * y >= 0
  {
  }

  lemma MulMagnitude(k: int, b: int)
    ensures k != 0 ==> Abs(k * b) >= Abs(b)
  {
    assert Abs(k * b) == Abs(k) * Abs(b) by {
      if k < 0 && b < 0 { assert k * b == (-k) * (-b); }
      else if k < 0 { assert k * b == -((-k) * b); }
      else if b < 0 { assert k * b == -(k * (-b)); }
    }
    if k != 0 {
      MulNonneg(Abs(k) - 1, Abs(b));
      assert Abs(k) * Abs(b) == (Abs(k) - 1) * Abs(b) + Abs(b);
    }
  }

  /** One drag event's contribution to the amount: `(deltaX % c) / c`.
      Taking the remainder first keeps it strictly inside one turn. */
  function Step(deltaX: int, c: int): (q: real)
    requires c != 0
    ensures -1.0 < q < 1.0
    ensures deltaX == 0 ==> q == 0.0
  {
    var r := JsRem(deltaX, c);
    StepBound(r, c);
    (r as real) / (c as real)
  }

  lemma StepBound(r: int, c: int)
    requires c != 0 && Abs(r) < Abs(c)
    ensures -1.0 < (r as real) / (c as real) < 1.0
  {
    if c > 0 {
      DivBound(r as real, c as real);
    } else {
      assert (r as real) / (c as real) == (-r as real) / (-c as real);
      DivBound(-r as real, -c as real);
    }
  }

  lemma DivBound(x: real, y: real)
    requires y > 0.0 && -y < x < y
    ensures -1.0 < x / y < 1.0
  {
    var q := x / y;
    assert q * y == x;
    ScaleAtLeast(q, y);
  }

  lemma ScaleAtLeast(q: real, y: real)
    requires y > 0.0
    ensures q >= 1.0 ==> q * y >= y
    ensures q <= -1.0 ==> q * y <= -y
  {
    if q >= 1.0 {
      RealMulNonneg(q - 1.0, y);
      assert q * y == (q - 1.0) * y + y;
    }
    if q <= -1.0 {
      RealMulNonneg(-q - 1.0, y);
      assert -(q * y) == (-q - 1.0) * y + y;
    }
  }

  lemma RealMulNonneg(x: real, y: real)
    requires x >= 0.0 && y >= 0.0
    ensures x * y >= 0.0
  {
  }

  /** The two-step wrap: add one turn if negative, then take one off if
      above one. */
  function Wrap(x: real): real {
    var y := if x < 0.0 then x + 1.0 else x;
    if y > 1.0 then y - 1.0 else y
  }

  /** The amount after one update: the previous amount plus the step, wrapped.
      Whatever the delta, an amount in [0, 1] stays in [0, 1] (1 included,
      because the wrap tests `> 1`), and the wrap only ever adds or removes
      whole turns. */
  function NextAmount(amount: real, deltaX: int, c: int): (a: real)
    requires c != 0
    ensures 0.0 <= amount <= 1.0 ==> 0.0 <= a <= 1.0
    ensures a == amount + Step(deltaX, c) || a == amount + Step(deltaX, c) + 1.0 ||
            a == amount + Step(deltaX, c) - 1.0
    ensures 0.0 <= amount + Step(deltaX, c) <= 1.0 ==> a == amount + Step(deltaX, c)
  {
    Wrap(amount + Step(deltaX, c))
  }

  /** `Math.floor(n * amount)`: the frame an amount points at.  For an amount
      in [0, 1] it is in [0, n], and it is n when the amount is 1. */
  function FrameIndex(n: nat, amount: real): (i: int)
    ensures i as real <= (n as real) * amount < (i as real) + 1.0
    ensures 0.0 <= amount ==> 0 <= i
    ensures amount <= 1.0 ==> i <= n
    ensures 0.0 <= amount < 1.0 && n > 0 ==> i < n
  {
    FrameIndexBounds(n, amount, (n as real) * amount);
    ((n as real) * amount).Floor
  }

  lemma FrameIndexBounds(n: nat, amount: real, x: real)
    requires x == (n as real) * amount
    ensures x.Floor as real <= x < (x.Floor as real) + 1.0
    ensures 0.0 <= amount ==> 0 <= x.Floor
    ensures amount <= 1.0 ==> x.Floor <= n
    ensures 0.0 <= amount < 1.0 && n > 0 ==> x.Floor < n
  {
    ScaledBounds(n as real, amount, x);
    if 0.0 <= amount {
      FloorNonneg(x);
    }
    if amount <= 1.0 {
      FloorAtMost(x, n);
    }
    if 0.0 <= amount < 1.0 && n > 0 {
      FloorBelow(x, n);
    }
  }

  lemma FloorNonneg(x: real)
    requires 0.0 <= x
    ensures 0 <= x.Floor
  {
  }

  lemma FloorAtMost(x: real, n: int)
    requires x <= n as real
    ensures x.Floor <= n
  {
  }

  lemma FloorBelow(x: real, n: int)
    requires x < n as real
    ensures x.Floor < n
  {
  }

  /** Scaling a frame count by an amount in [0, 1]. */
  lemma ScaledBounds(n: real, a: real, x: real)
    requires n >= 0.0 && x == n * a
    ensures 0.0 <= a ==> 0.0 <= x
    ensures a <= 1.0 ==> x <= n
    ensures 0.0 <= a < 1.0 && n > 0.0 ==> x < n
  {
    if 0.0 <= a {
      RealMulNonneg(n, a);
    }
    if a <= 1.0 {
      RealMulNonneg(n, 1.0 - a);
      assert n - x == n * (1.0 - a);
    }
    if a < 1.0 && n > 0.0 {
      RealMulPos(n, 1.0 - a);
      assert n - x == n * (1.0 - a);
    }
  }

  lemma RealMulPos(x: real, y: real)
    requires x > 0.0 && y > 0.0
    ensures x * y > 0.0
  {
  }

  /** With four frames and a 200-pixel circumference: a 50-pixel drag from
      the start is a quarter turn and points at frame 1; 250 pixels give the
      same quarter turn, because only the remainder counts; a 50-pixel drag
      to the left wraps round to three quarters; 100 pixels from a half turn
      reach exactly one turn, which points one past the last frame. */
  lemma QuarterTurns()
    ensures NextAmount(0.0, 50, 200) == 0.25 && FrameIndex(4, 0.25) == 1
    ensures NextAmount(0.0, 250, 200) == 0.25
    ensures NextAmount(0.0, -50, 200) == 0.75 && FrameIndex(4, 0.75) == 3
    ensures NextAmount(0.5, 100, 200) == 1.0 && FrameIndex(4, 1.0) == 4
  {
    assert JsRem(50, 200) == 50;
    assert JsRem(250, 200) == 50;
    assert JsRem(-50, 200) == -50;
    assert JsRem(100, 200) == 100;
  }

  /** One frame as the coordinator sees it: its URL and whether it has loaded. */
  datatype Frame = Frame(url: string, ready: bool)

  /** What the coordinator shows: the accumulated amount, the current frame
      index and the displayed image source (None: `undefined` was assigned). */
  datatype View = View(amount: real, index: int, src: Option<string>)

  /** The guard of `my.update`: a new index, inside the frame list, whose
      frame is loaded. */
  predicate Swaps(frames: seq<Frame>, curIndex: int, i: int)
    requires 0 <= i
  {
    i != curIndex && i < |frames| && frames[i].ready
  }

  /** `my.update(deltaX, deltaY)` on values.  `deltaY` is taken and ignored. */
  function Update(v: View, frames: seq<Frame>, c: int, deltaX: int, deltaY: int): (w: View)
    requires c != 0 && 0.0 <= v.amount <= 1.0
    ensures w.amount == NextAmount(v.amount, deltaX, c)
    ensures w.index != v.index ==> 0 <= w.index < |frames| && frames[w.index].ready
    ensures w.index == v.index ==> w.src == v.src
    ensures w.index != v.index ==> w.src == Some(frames[w.index].url)
  {
    var a := NextAmount(v.amount, deltaX, c);
    var i := FrameIndex(|frames|, a);
    if Swaps(frames, v.index, i) then View(a, i, Some(frames[i].url))
    else View(a, v.index, v.src)
  }

  /** The index and the display change exactly when the guard holds for the
      index the new amount points at; otherwise the old frame stays shown. */
  lemma UpdateSwapsIff(v: View, frames: seq<Frame>, c: int, deltaX: int, deltaY: int)
    requires c != 0 && 0.0 <= v.amount <= 1.0
    ensures var a := NextAmount(v.amount, deltaX, c);
            var i := FrameIndex(|frames|, a);
            var w := Update(v, frames, c, deltaX, deltaY);
            (w.index != v.index <==> Swaps(frames, v.index, i)) &&
            (Swaps(frames, v.index, i) ==> w.index == i && w.src == Some(frames[i].url)) &&
            (!Swaps(frames, v.index, i) ==> w.index == v.index && w.src == v.src)
  {
  }

  /** Only the horizontal delta matters. */
  lemma UpdateIgnoresDeltaY(v: View, frames: seq<Frame>, c: int, deltaX: int, dy1: int, dy2: int)
    requires c != 0 && 0.0 <= v.amount <= 1.0
    ensures Update(v, frames, c, deltaX, dy1) == Update(v, frames, c, deltaX, dy2)
  {
  }

  /** An update that lands on exactly one turn (from a half turn, half a
      circumference further, say) points one past the last frame, which the
      guard rejects: the previous frame stays on screen. */
  lemma FullTurnHolds(v: View, frames: seq<Frame>, c: int, deltaX: int, deltaY: int)
    requires c != 0 && 0.0 <= v.amount <= 1.0 && 0 <= v.index < |frames|
    requires NextAmount(v.amount, deltaX, c) == 1.0
    ensures FrameIndex(|frames|, 1.0) == |frames|
    ensures Update(v, frames, c, deltaX, deltaY) == v.(amount := 1.0)
  {
  }

  /** The coordinator's invariant on values: the amount is in [0, 1], the index
      is a frame of the list (or 0 for an empty list), the display shows that
      frame, and a frame other than the first is only current once loaded. */
  predicate Inv(v: View, frames: seq<Frame>, urls: seq<string>) {
    && |frames| == |urls|
    && (forall k :: 0 <= k < |frames| ==> frames[k].url == urls[k])
    && 0.0 <= v.amount <= 1.0
    && 0 <= v.index
    && (|frames| == 0 ==> v.index == 0 && v.src == None)
    && (|frames| > 0 ==> v.index < |frames| && v.src == Some(urls[v.index]))
    && (v.index == 0 || frames[v.index].ready)
  }

  /** Every update keeps the invariant, whatever the deltas. */
  lemma UpdateKeepsInv(v: View, frames: seq<Frame>, urls: seq<string>, c: int, deltaX: int, deltaY: int)
    requires c != 0 && Inv(v, frames, urls)
    ensures Inv(Update(v, frames, c, deltaX, deltaY), frames, urls)
  {
  }

  /** A frame that has loaded stays loaded: `after` only adds readiness. */
  predicate LoadedMore(before: seq<Frame>, after: seq<Frame>) {
    |before| == |after| &&
    forall k :: 0 <= k < |before| ==>
      after[k].url == before[k].url && (before[k].ready ==> after[k].ready)
  }

  /** Loading frames never breaks the invariant. */
  lemma LoadKeepsInv(v: View, before: seq<Frame>, after: seq<Frame>, urls: seq<string>)
    requires Inv(v, before, urls) && LoadedMore(before, after)
    ensures Inv(v, after, urls)
  {
  }

  /** A whole drag: the updates for a sequence of (deltaX, deltaY) events. */
  function Replay(v: View, frames: seq<Frame>, c: int, deltas: seq<(int, int)>): (w: View)
    requires c != 0 && 0.0 <= v.amount <= 1.0
    ensures 0.0 <= w.amount <= 1.0
    decreases |deltas|
  {
    if deltas == [] then v
    else Replay(Update(v, frames, c, deltas[0].0, deltas[0].1), frames, c, deltas[1..])
  }

  /** The invariant holds after any sequence of drag events. */
  lemma {:induction false} ReplayKeepsInv(v: View, frames: seq<Frame>, urls: seq<string>, c: int, deltas: seq<(int, int)>)
    requires c != 0 && Inv(v, frames, urls)
    ensures Inv(Replay(v, frames, c, deltas), frames, urls)
    decreases |deltas|
  {
    if deltas != [] {
      UpdateKeepsInv(v, frames, urls, c, deltas[0].0, deltas[0].1);
      ReplayKeepsInv(Update(v, frames, c, deltas[0].0, deltas[0].1), frames, urls, c, deltas[1..]);
    }
  }

  /** Stale-frame hold: while no other frame is loaded, no sequence of drags
      changes the index or the displayed image. */
  lemma {:induction false} ReplayHoldsUnready(v: View, frames: seq<Frame>, c: int, deltas: seq<(int, int)>)
    requires c != 0 && 0.0 <= v.amount <= 1.0
    requires forall k :: 0 <= k < |frames| && k != v.index ==> !frames[k].ready
    ensures Replay(v, frames, c, deltas).index == v.index
    ensures Replay(v, frames, c, deltas).src == v.src
    decreases |deltas|
  {
    if deltas != [] {
      var w := Update(v, frames, c, deltas[0].0, deltas[0].1);
      assert w.index == v.index && w.src == v.src;
      ReplayHoldsUnready(w, frames, c, deltas[1..]);
    }
  }
}
