/** CompassService: the shared heading, kept in [0, 360). */
module Compass {
  import opened Bytes

  const FullTurn: int := 360

  /** C#'s `heading % 360`: the remainder of division truncated toward zero,
      so it takes the sign of the dividend. Dafny's `%` is Euclidean. */
  function TruncatedRem(a: int): (r: int)
    ensures (a - r) % FullTurn == 0
    ensures a >= 0 ==> 0 <= r < FullTurn
    ensures a < 0 ==> -FullTurn < r <= 0
  {
    if a >= 0 then a % FullTurn else -((-a) % FullTurn)
  }

  /** `heading % 360`, then 360 added when that is negative. */
  function Normalized(h: int): int {
    var r := TruncatedRem(h);
    if r < 0 then r + FullTurn else r
  }

  /** The normalised heading is the mathematical residue of h modulo 360. */
  lemma NormalizedIsResidue(h: int)
    ensures 0 <= Normalized(h) < FullTurn
    ensures Normalized(h) == h % FullTurn
  {
  }

  /** A heading already in range is kept; so normalising twice is
      normalising once. */
  lemma NormalizedInRange(h: int)
    requires 0 <= h < FullTurn
    ensures Normalized(h) == h
  {
  }

  lemma NormalizedIdempotent(h: int)
    ensures Normalized(Normalized(h)) == Normalized(h)
  {
    NormalizedIsResidue(h);
    NormalizedInRange(Normalized(h));
  }

  class CompassService {
    var heading: int
    /** Number of OnChange notifications raised. */
    var changeEvents: nat

    constructor ()
      ensures heading == 0 && changeEvents == 0
    {
      heading, changeEvents := 0, 0;
    }

    /** SetHeading(h): stores h modulo 360 and notifies once. */
    method SetHeading(h: Int32)
      modifies this
      ensures heading == Normalized(h) && 0 <= heading < FullTurn
      ensures changeEvents == old(changeEvents) + 1
    {
      heading := TruncatedRem(h);
      if heading < 0 {
        heading := heading + FullTurn;
      }
      NormalizedIsResidue(h);
      changeEvents := changeEvents + 1;
    }
  }

  /** -90 is stored as 270, 725 as 5, and re-setting the heading keeps it. */
  method CompassScenario()
  {
    var compass := new CompassService();
    compass.SetHeading(-90);
    assert compass.heading == 270;
    compass.SetHeading(725);
    assert compass.heading == 5;
    compass.SetHeading(compass.heading as Int32);
    assert compass.heading == 5 && compass.changeEvents == 3;
  }
}
