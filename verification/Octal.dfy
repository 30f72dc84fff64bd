/** Octal fields: digits of a fixed width, most significant first. */
module Octal {
  import opened Octets

  function Pow8(w: nat): (r: nat)
    ensures r >= 1
  {
    if w == 0 then 1 else 8 * Pow8(w - 1)
  }

  function Digit(n: nat): Byte {
    48 + n % 8
  }

  /** value.toString(8) */
  function ToOctal(n: nat): (r: Bytes)
    ensures |r| >= 1
  {
    if n < 8 then [Digit(n)] else ToOctal(n / 8) + [Digit(n)]
  }

  function PadStart(digits: Bytes, width: nat): Bytes
    decreases width - |digits|
  {
    if |digits| >= width then digits else PadStart([48] + digits, width)
  }

  /** Exactly w digits. */
  function Fixed(n: nat, w: nat): (r: Bytes)
    ensures |r| == w
  {
    if w == 0 then [] else Fixed(n / 8, w - 1) + [Digit(n)]
  }

  /** Leading digits up to the first byte that is none. */
  function ReadOctal(field: Bytes, acc: nat := 0): nat {
    if field == [] || !(48 <= field[0] < 56) then acc else ReadOctal(field[1..], acc * 8 + (field[0] as int - 48))
  }

  // ---- a field of the right width

  lemma {:induction false} PadStartFront(digits: Bytes, w: nat, last: Byte)
    ensures PadStart(digits, w) + [last] == PadStart(digits + [last], w + 1)
    decreases w - |digits|
  {
    if |digits| < w {
      PadStartFront([48] + digits, w, last);
      assert [48] + (digits + [last]) == ([48] + digits) + [last];
    }
  }

  lemma {:induction false} PadZeros(w: nat, n: nat)
    requires n < 8
    ensures PadStart([Digit(n)], w + 1) == Fixed(n, w + 1)
  {
    if w == 0 {
      assert Fixed(n, 1) == [] + [Digit(n)];
    } else {
      PadStartFront([48], w, Digit(n));
      PadZeros(w - 1, 0);
      assert [48] + [Digit(n)] == [Digit(0)] + [Digit(n)];
      assert PadStart([Digit(n)], w + 1) == PadStart([48] + [Digit(n)], w + 1);
    }
  }

  /** A value below 8^w, padded, has exactly w digits; a larger one has more. */
  lemma {:induction false} PaddedIsFixed(n: nat, w: nat)
    requires w >= 1
    ensures n < Pow8(w) ==> PadStart(ToOctal(n), w) == Fixed(n, w)
    ensures n >= Pow8(w) ==> |PadStart(ToOctal(n), w)| > w
  {
    if n < 8 {
      assert Pow8(w) == 8 * Pow8(w - 1);
      PadZeros(w - 1, n);
    } else if w == 1 {
      assert Pow8(1) == 8 * Pow8(0);
    } else {
      assert Pow8(w) == 8 * Pow8(w - 1);
      PaddedIsFixed(n / 8, w - 1);
      PadStartFront(ToOctal(n / 8), w - 1, Digit(n));
      assert n < 8 * Pow8(w - 1) <==> n / 8 < Pow8(w - 1);
    }
  }

  // ---- reading it back

  lemma {:induction false} ReadsDigit(front: Bytes, last: Byte, rest: Bytes, acc: nat)
    requires (forall i :: 0 <= i < |front| ==> 48 <= front[i] < 56) && 48 <= last < 56
    ensures ReadOctal(front + [last] + rest, acc) == ReadOctal(rest, ReadOctal(front, acc) * 8 + (last as int - 48))
  {
    if front == [] {
      assert front + [last] + rest == [last] + rest;
    } else {
      assert (front + [last] + rest)[1..] == front[1..] + [last] + rest;
      ReadsDigit(front[1..], last, rest, acc * 8 + (front[0] as int - 48));
    }
  }

  lemma {:induction false} FixedDigits(n: nat, w: nat)
    ensures forall i :: 0 <= i < w ==> 48 <= Fixed(n, w)[i] < 56
  {
    if w > 0 {
      FixedDigits(n / 8, w - 1);
    }
  }

  /** Reading the digits gives the value back, whatever ends them. */
  lemma {:induction false} FixedRoundTrip(n: nat, w: nat, rest: Bytes)
    requires n < Pow8(w) && rest != [] && !(48 <= rest[0] < 56)
    ensures ReadOctal(Fixed(n, w) + rest) == n
  {
    FixedReads(n, w);
    if w == 0 {
      assert Fixed(n, w) + rest == rest;
    } else {
      FixedDigits(n / 8, w - 1);
      FixedReads(n / 8, w - 1);
      ReadsDigit(Fixed(n / 8, w - 1), Digit(n), rest, 0);
      assert Fixed(n, w) + rest == Fixed(n / 8, w - 1) + [Digit(n)] + rest;
    }
  }

  lemma {:induction false} FixedReads(n: nat, w: nat)
    requires n < Pow8(w)
    ensures ReadOctal(Fixed(n, w)) == n
  {
    if w > 0 {
      assert Pow8(w) == 8 * Pow8(w - 1);
      FixedReads(n / 8, w - 1);
      FixedDigits(n / 8, w - 1);
      ReadsDigit(Fixed(n / 8, w - 1), Digit(n), [], 0);
      assert Fixed(n, w) == Fixed(n / 8, w - 1) + [Digit(n)] + [];
    }
  }
}
