/** 32-bit machine words as the firmware's `unsigned long` and `int` hold them. */
module Words {
  const WORD: int := 0x1_0000_0000

  type word = x: int | 0 <= x < 0x1_0000_0000
  type int32 = x: int | -0x8000_0000 <= x < 0x8000_0000

  /** What storing -1 in an `unsigned long` leaves there: the "no timer" mark. */
  const NO_TIMER: word := 0xFFFF_FFFF

  /** Conversion of any integer to an unsigned word. */
  function Wrap(n: int): word {
    n % WORD
  }

  /** Unsigned subtraction. */
  function Minus(a: word, b: word): word {
    Wrap(a - b)
  }

  /** Conversion of an unsigned word to a signed `int`. */
  function Signed(w: word): int32 {
    if w < 0x8000_0000 then w else w - WORD
  }

  /** Conversion of an `int` to `int8_t`: the low eight bits, read as signed. */
  function Int8(n: int32): int {
    var low := n % 256;
    if low < 128 then low else low - 256
  }

  /** Subtracting clock readings gives the elapsed time modulo 2^32, however often the clock rolled over. */
  lemma ElapsedModulo(last: nat, now: nat)
    requires last <= now
    ensures Minus(Wrap(now), Wrap(last)) == (now - last) % WORD
    ensures Minus(Wrap(now), Wrap(last)) <= now - last
    ensures now - last < WORD ==> Minus(Wrap(now), Wrap(last)) == now - last
  {
    var a, b := now / WORD, last / WORD;
    assert now == a * WORD + Wrap(now) && last == b * WORD + Wrap(last);
    assert now - last == (a - b) * WORD + (Wrap(now) - Wrap(last));
  }
}
