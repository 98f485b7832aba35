/** The retry wait: how the configured number of seconds becomes the
    argument of `Thread.sleep`. */
module Retry {
  import opened Remote

  const Two32: int := 0x1_0000_0000

  /** Java `int` arithmetic: the two's-complement value of `x` modulo 2^32. */
  function Wrap32(x: int): (w: int32)
    ensures -0x8000_0000 <= x < 0x8000_0000 ==> w as int == x
    ensures (x - w as int) % Two32 == 0
  {
    var m := x % Two32;
    if m < 0x8000_0000 then m as int32 else (m - Two32) as int32
  }

  /** The sleep argument as the source computes it: `retry_wait * 1000`,
      a product of two `int`s that wraps around before it is widened to the
      `long` that `Thread.sleep` takes. */
  function SleepMillisAsWritten(retryWait: int32): (ms: int32)
    ensures -2147483 <= retryWait as int <= 2147483 ==> ms as int == retryWait as int * 1000
    ensures (ms as int - retryWait as int * 1000) % Two32 == 0
  {
    Wrap32(retryWait as int * 1000)
  }

  /** The sleep argument computed in `long` arithmetic, as evidently
      intended: exactly `retryWait` seconds, for every `int` wait. */
  function SleepMillis(retryWait: int32): (ms: int)
    ensures ms % 1000 == 0 && ms / 1000 == retryWait as int
    ensures -0x8000_0000_0000_0000 <= ms < 0x8000_0000_0000_0000
    ensures retryWait >= 5 ==> ms >= 5000
  {
    retryWait as int * 1000
  }

  /** The written product and the intended one agree exactly on the waits of
      at most 2147483 seconds in magnitude. */
  lemma SleepMillisAgreement(retryWait: int32)
    ensures SleepMillisAsWritten(retryWait) as int == SleepMillis(retryWait) <==>
      -2147483 <= retryWait as int <= 2147483
  {
    var ms := retryWait as int * 1000;
    if -2147483 <= retryWait as int <= 2147483 {
      assert -0x8000_0000 <= ms < 0x8000_0000;
    } else {
      assert !(-0x8000_0000 <= ms < 0x8000_0000);
    }
  }

  /** Two inputs the `-r` option accepts on which the written product goes
      wrong: 2147484 seconds makes the argument negative, so `Thread.sleep`
      throws instead of waiting; 4294968 seconds wraps to a 704 ms sleep. */
  lemma SleepOverflowExample()
    ensures SleepMillisAsWritten(2147484) < 0 && SleepMillis(2147484) > 0
    ensures SleepMillisAsWritten(4294968) == 704 && SleepMillis(4294968) == 4294968000
  {
    assert 2147484 * 1000 - Two32 == -2147483296;
    assert 4294968 * 1000 - Two32 == 704;
  }
}
