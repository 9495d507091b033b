/** Arithmetic shared by the units: 32-bit credit counters, division of a composed number. */
module Arithmetic {

  const WIDTH32: nat := 0x1_0000_0000

  function Count(c: nat, up: bool, down: bool): (c': nat)
  {
    if up && !down then (c + 1) % WIDTH32
    else if !up && down then (c + WIDTH32 - 1) % WIDTH32
    else c
  }

  /** A 32-bit counter of what is owed stays right, and nothing is paid that is not owed. */
  lemma CountIs(c: nat, owed: nat, paid: nat, up: bool, down: bool)
    requires paid <= owed && c == (owed - paid) % 0x1_0000_0000 && (down ==> c != 0)
    ensures var owed', paid' := if up then owed + 1 else owed, if down then paid + 1 else paid;
            paid' <= owed' && Count(c, up, down) == (owed' - paid') % 0x1_0000_0000
  {
  }

  /** Quotient and remainder are the parts a number is composed of. */
  lemma DivModUnique(q: nat, r: nat, d: nat)
    requires r < d
    ensures (q * d + r) / d == q && (q * d + r) % d == r
  {
    var x := q * d + r;
    var k := x / d - q;
    assert k * d == r - x % d;
    assert k >= 1 ==> k * d >= d;
    assert k <= -1 ==> k * d + d <= 0;
  }
}
