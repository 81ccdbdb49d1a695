/** How long the device waits before the next connection attempt. */
module WifiBackoff {
  import opened Bytes

  const BASE_MS: word := 500
  const MAX_MS: word := 30000
  const JITTER_PCT: word := 10
  const SIGNED_MAX := 0x7FFF_FFFF

  function Doubled(ms: nat, times: nat): nat
    decreases times
  {
    if times == 0 then ms else Doubled(2 * ms, times - 1)
  }

  /** a << k on uint32_t. */
  function Shl32(a: word, k: nat): word {
    Doubled(a, k) % 0x1_0000_0000
  }

  /** The delay of the n-th schedule since a reset, before jitter. */
  function Plain(n: nat): nat {
    Min(Doubled(BASE_MS, Min(n, 6)), MAX_MS)
  }

  /** The draw, centred on zero. */
  function Offset(random: word, span: nat): (off: int)
    requires span > 0
    ensures -(span as int) <= off < span
  {
    random % span - span / 2
  }

  function AtLeastZero(d: int): nat {
    if d < 0 then 0 else d
  }

  /** Every step of schedule's 32-bit arithmetic, done in unbounded integers. */
  function Jittered(delay: nat, random: word): int {
    var span := delay * JITTER_PCT / 100;
    if span == 0 then delay
    else
      AtLeastZero(delay + Offset(random, span))
  }

  class Backoff {
    var retries: nat
    var timer: seq<word>  // the delays the timer was started with

    constructor ()
      ensures retries == 0 && timer == []
    {
      retries, timer := 0, [];
    }

    method Reset()
      modifies `retries
      ensures retries == 0
    {
      retries := 0;
    }

    /** No step leaves 32 bits: the shift loses nothing, and the locals have the source's types. */
    method Schedule(random: word)
      requires retries < SIGNED_MAX
      modifies this
      ensures retries == old(retries) + 1 <= SIGNED_MAX
      ensures timer == old(timer) + [Jittered(Plain(old(retries)), random)]
    {
      hide Doubled;
      PlainValues(Min(retries, 6));
      var delay: word := Shl32(BASE_MS, if retries < 6 then retries else 6);
      if delay > MAX_MS {
        delay := MAX_MS;
      }
      assert delay == Plain(retries);
      hide Plain, Shl32, Offset;
      var product: word := delay * JITTER_PCT;
      var span: word := product / 100;
      if span != 0 {
        var off: int := Offset(random, span);
        var d2: int := delay + off;
        assert -SIGNED_MAX <= off <= SIGNED_MAX && -SIGNED_MAX <= d2 <= SIGNED_MAX;
        delay := AtLeastZero(d2);
      }
      timer := timer + [delay];
      retries := retries + 1;
    }
  }

  lemma {:induction false} DoubledOnceMore(ms: nat, times: nat)
    ensures Doubled(ms, times + 1) == 2 * Doubled(ms, times)
    decreases times
  {
    if times > 0 {
      DoubledOnceMore(2 * ms, times - 1);
    }
  }

  /** 500, 1000, 2000, 4000, 8000, 16000, then 30000 for ever. */
  lemma PlainValues(n: nat)
    ensures Plain(n) == if n == 0 then 500 else if n == 1 then 1000 else if n == 2 then 2000 else if n == 3 then 4000
                        else if n == 4 then 8000 else if n == 5 then 16000 else 30000
    ensures n <= 6 ==> Doubled(BASE_MS, n) <= 32000
  {
    var one := Doubled(1000, 0);
    assert Doubled(500, 1) == 1000;
    DoubledOnceMore(500, 1);
    DoubledOnceMore(500, 2);
    DoubledOnceMore(500, 3);
    DoubledOnceMore(500, 4);
    DoubledOnceMore(500, 5);
  }

  /** For every draw, the n-th wait stays within a twentieth of the plain delay, and below 31.5 seconds. */
  lemma WaitWindow(n: nat, random: word)
    ensures var d, w := Plain(n), Jittered(Plain(n), random);
            d - d / 20 <= w <= d + d / 20 - 1 && w <= 31499
  {
    PlainValues(n);
    hide Plain;
    var span := Plain(n) * JITTER_PCT / 100;
    assert 0 <= random % span < span;
  }

  /** Every value of the window is drawn for some random number, so the bounds cannot be improved. */
  lemma WindowIsTight(n: nat, w: int)
    requires Plain(n) - Plain(n) / 20 <= w <= Plain(n) + Plain(n) / 20 - 1
    ensures exists random: word :: Jittered(Plain(n), random) == w
  {
    PlainValues(n);
    hide Plain;
    var random: word := w - (Plain(n) - Plain(n) / 20);
    var span := Plain(n) * JITTER_PCT / 100;
    assert span / 2 == Plain(n) / 20 && random < span;
    SmallModulo(random, span);
    assert Jittered(Plain(n), random) == w;
  }

  lemma SmallModulo(x: nat, n: nat)
    requires x < n
    ensures x % n == x
  {
  }

  /** Until the cap, whatever is drawn, each wait is longer than the one before; from the cap on the window stays. */
  lemma WaitsGrow(n: nat, before: word, after: word)
    ensures n < 6 ==> Jittered(Plain(n), before) < Jittered(Plain(n + 1), after)
    ensures n >= 6 ==> Plain(n + 1) == Plain(n) == MAX_MS
  {
    WaitWindow(n, before);
    WaitWindow(n + 1, after);
    PlainValues(n);
    PlainValues(n + 1);
  }
}
