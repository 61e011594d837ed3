/** The size formatter of the memory tree map: units in powers of 1024, a decimal only where the
    printed value is not exact. The printed text is kept as its parts. */
module FormatSize {
  import opened Common

  const UNITS: string := "BkMGTPE"

  /** `value` and a unit letter, with one decimal or none. */
  datatype Size = Exact(value: nat, letter: char) | Rounded(value: nat, tenth: nat, letter: char)

  function Unit(ui: nat): (u: nat)
    ensures u > 0
  {
    if ui == 0 then 1 else 1024 * Unit(ui - 1)
  }

  predicate GoesOn(n: nat) {
    n >= 10000 || (n != 0 && n % 1024 == 0)
  }

  /** The number of whole units; ReducedIsQuotient ties it to division. */
  function Reduced(nbytes: nat, ui: nat): nat {
    if ui == 0 then nbytes else Reduced(nbytes, ui - 1) / 1024
  }

  /** The sizes for which the letters run out. */
  predicate TooLarge(nbytes: nat) {
    GoesOn(Reduced(nbytes, 6))
  }

  // ------------------------------------------------------------------ the divisions

  /** After `ui` divisions `n` units are left over `low` bytes, of which the last division
      dropped `r` units of the next smaller size. */
  ghost predicate Divided(nbytes: nat, n: nat, ui: nat, r: nat, low: nat) {
    && n == Reduced(nbytes, ui)
    && nbytes == n * Unit(ui) + low && low < Unit(ui)
    && r < 1024
    && (ui == 0 ==> r == 0)
    && (ui > 0 ==> r == Reduced(nbytes, ui - 1) % 1024)
    && (ui > 0 ==> r * Unit(ui - 1) <= low < r * Unit(ui - 1) + Unit(ui - 1))
  }

  lemma DivideAgain(nbytes: nat, n: nat, ui: nat, low: nat) returns (more: nat)
    requires n == Reduced(nbytes, ui) && nbytes == n * Unit(ui) + low && low < Unit(ui)
    ensures Divided(nbytes, n / 1024, ui + 1, n % 1024, more)
    ensures more == 0 <==> n % 1024 == 0 && low == 0
  {
    var u, q, m := Unit(ui), n / 1024, n % 1024;
    assert n * u == q * (1024 * u) + m * u by {
      assert n == 1024 * q + m;
      Distribute(1024 * q, m, u);
      Regroup(q, 1024, u);
    }
    more := m * u + low;
    AtMost(m, 1023, u);
    assert m > 0 ==> m * u > 0 by {
      if m > 0 {
        AtMost(1, m, u);
      }
    }
  }

  lemma Distribute(a: int, b: int, c: int)
    ensures (a + b) * c == a * c + b * c
  {
  }

  lemma Regroup(a: int, b: int, c: int)
    ensures (b * a) * c == a * (b * c)
  {
  }

  lemma AtMost(a: nat, b: nat, u: nat)
    requires a <= b
    ensures a * u <= b * u
  {
  }

  lemma Quotient(nbytes: nat, n: nat, u: nat, low: nat)
    requires nbytes == n * u + low && low < u
    ensures nbytes / u == n
  {
    var q := nbytes / u;
    if q < n {
      AtMost(q + 1, n, u);
      Distribute(q, 1, u);
    } else if q > n {
      AtMost(n + 1, q, u);
      Distribute(n, 1, u);
    }
  }

  lemma {:induction false} ReducedIsQuotient(nbytes: nat, ui: nat)
    ensures Reduced(nbytes, ui) == nbytes / Unit(ui)
  {
    var low := Remains(nbytes, ui);
    Quotient(nbytes, Reduced(nbytes, ui), Unit(ui), low);
  }

  lemma {:induction false} Remains(nbytes: nat, ui: nat) returns (low: nat)
    ensures nbytes == Reduced(nbytes, ui) * Unit(ui) + low && low < Unit(ui)
  {
    low := 0;
    if ui > 0 {
      var l := Remains(nbytes, ui - 1);
      var n := Reduced(nbytes, ui - 1);
      low := DivideAgain(nbytes, n, ui - 1, l);
    }
  }

  lemma SixthUnit()
    ensures Unit(1) == 0x400 && Unit(2) == 0x10_0000 && Unit(3) == 0x4000_0000
    ensures Unit(4) == 0x100_0000_0000 && Unit(5) == 0x4_0000_0000_0000 && Unit(6) == 0x1000_0000_0000_0000
  {
    assert Unit(2) == 1024 * Unit(1);
    assert Unit(3) == 1024 * Unit(2);
    assert Unit(4) == 1024 * Unit(3);
    assert Unit(5) == 1024 * Unit(4);
    assert Unit(6) == 1024 * Unit(5);
  }

  lemma FewUnits(nbytes: nat, n: nat, ui: nat, low: nat)
    requires nbytes == n * Unit(ui) + low && low < Unit(ui)
    ensures n < 10000 ==> nbytes < 10000 * Unit(ui)
  {
    if n < 10000 {
      AtMost(n, 9999, Unit(ui));
    }
  }

  /** A size too large for the letters is divided at least seven times. */
  lemma StillGoesOn(nbytes: nat, n: nat, ui: nat, r: nat, low: nat)
    requires Divided(nbytes, n, ui, r, low) && ui <= 6
    ensures ui == 6 ==> (GoesOn(n) <==> TooLarge(nbytes))
    ensures TooLarge(nbytes) ==> GoesOn(n)
  {
    SixthUnit();
    if ui < 6 && TooLarge(nbytes) {
      var q := Reduced(nbytes, 6);
      var rest := Remains(nbytes, 6);
      AtMost(1024, q, Unit(6));
      assert Unit(ui) <= Unit(5);
      FewUnits(nbytes, n, ui, low);
    }
  }

  // ------------------------------------------------------------------ rounding

  /** The printed value of a rounded size in tenths, against the bytes it stands for. */
  ghost predicate WithinATenth(nbytes: nat, value: nat, tenth: nat, unit: nat) {
    var off := 10 * nbytes - (10 * value + tenth) * unit;
    off < unit && -off < unit
  }

  lemma TenthIsNear(r: nat, tenth: nat)
    requires r < 1024 && tenth == r / 100 + if r % 100 >= 50 then 1 else 0
    ensures tenth <= 10 && -740 <= 10 * r - 1024 * tenth <= 490
  {
  }

  lemma InTenths(n: nat, tenth: nat, u: nat)
    ensures (10 * n + tenth) * u == 10 * (n * u) + tenth * u
  {
  }

  lemma InParts(r: nat, tenth: nat, s: nat, u: nat)
    requires u == 1024 * s
    ensures (10 * r - 1024 * tenth) * s == 10 * (r * s) - tenth * u
  {
  }

  /** The products of the rounding error as numbers of their own. */
  lemma ErrorBound(units: int, tenths: int, parts: int, error: int, low: int, s: int)
    requires parts <= low < parts + s && error == 10 * parts - tenths
    requires -740 * s <= error <= 490 * s
    ensures -1024 * s < 10 * (units + low) - (10 * units + tenths) < 1024 * s
  {
  }

  lemma RoundingError(nbytes: nat, n: nat, ui: nat, r: nat, low: nat, tenth: nat)
    requires Divided(nbytes, n, ui, r, low) && ui > 0
    requires tenth == r / 100 + if r % 100 >= 50 then 1 else 0
    ensures tenth <= 10 && WithinATenth(nbytes, n, tenth, Unit(ui))
  {
    var s, u := Unit(ui - 1), Unit(ui);
    TenthIsNear(r, tenth);
    var e := 10 * r - 1024 * tenth;
    InTenths(n, tenth, u);
    InParts(r, tenth, s, u);
    Between(-740, e, 490, s);
    ErrorBound(n * u, tenth * u, r * s, e * s, low, s);
  }

  lemma Between(a: int, e: int, b: int, s: nat)
    requires a <= e <= b
    ensures a * s <= e * s <= b * s
  {
  }

  lemma Carry(nbytes: nat, n: nat, unit: nat)
    requires WithinATenth(nbytes, n, 10, unit)
    ensures WithinATenth(nbytes, n + 1, 0, unit)
  {
    assert 10 * n + 10 == 10 * (n + 1) + 0;
  }

  // ------------------------------------------------------------------ the formatter

  /** There are too many of a unit, or a multiple of 1024 and so a whole number of the next one. */
  ghost predicate UnitTooSmall(n: nat) {
    n > 9999 || exists k: nat :: k > 0 && n == 1024 * k
  }

  lemma GoesOnIff(n: nat)
    ensures GoesOn(n) <==> UnitTooSmall(n)
  {
    if n != 0 && n % 1024 == 0 {
      assert n == 1024 * (n / 1024);
    }
  }

  /** The unit is the first one that is not too small. */
  ghost predicate FirstFit(nbytes: nat, ui: nat) {
    !UnitTooSmall(Reduced(nbytes, ui)) && forall j: nat :: j < ui ==> UnitTooSmall(Reduced(nbytes, j))
  }

  /** What a printed size says of the bytes: without a decimal it is exact; with one it is not a whole
      number of units, and less than a tenth of its unit off: the hundreds, rounded, of the
      next smaller units that are left over. */
  ghost predicate Denotes(nbytes: nat, ui: nat, size: Size) {
    && ui < 7 && size.letter == "BkMGTPE"[ui] && FirstFit(nbytes, ui)
    && match size
       case Exact(value, _) => nbytes == value * Unit(ui) && value < 10000
       case Rounded(value, tenth, _) =>
         && tenth < 10 && value <= 10000 && nbytes > Reduced(nbytes, ui) * Unit(ui)
         && WithinATenth(nbytes, value, tenth, Unit(ui))
         && ui > 0 && 10 * value + tenth == 10 * Reduced(nbytes, ui) + (Reduced(nbytes, ui - 1) % 1024 + 50) / 100
  }

  /** The loop of divisions. */
  method Divide(nbytes: nat) returns (n: nat, ui: nat, r: nat, whole: bool, ghost low: nat)
    ensures Divided(nbytes, n, ui, r, low) && FirstFit(nbytes, ui)
    ensures whole <==> low == 0
    ensures ui > 6 <==> TooLarge(nbytes)
  {
    n, ui, r, whole, low := nbytes, 0, 0, true, 0;
    while GoesOn(n)
      invariant Divided(nbytes, n, ui, r, low)
      invariant whole <==> low == 0
      invariant ui > 6 ==> TooLarge(nbytes)
      invariant forall j: nat :: j < ui ==> UnitTooSmall(Reduced(nbytes, j))
      decreases n
    {
      GoesOnIff(n);
      if ui <= 6 {
        StillGoesOn(nbytes, n, ui, r, low);
      }
      low := DivideAgain(nbytes, n, ui, low);
      ui := ui + 1;
      if n % 1024 != 0 {
        whole := false;
      }
      r := n % 1024;
      n := n / 1024;
    }
    GoesOnIff(n);
    if ui <= 6 {
      StillGoesOn(nbytes, n, ui, r, low);
    }
  }

  /** Nothing is printed exactly when the size is too large for the letters. */
  method Format(nbytes: nat) returns (size: Option<Size>)
    ensures size.None? <==> TooLarge(nbytes)
    ensures size.Some? ==> exists ui: nat :: Denotes(nbytes, ui, size.value)
  {
    var n, ui, r, whole;
    ghost var low;
    n, ui, r, whole, low := Divide(nbytes);
    if ui >= |UNITS| {
      return None;
    }
    if whole {
      size := Some(Exact(n, UNITS[ui]));
    } else {
      var tenth := r / 100 + if r % 100 >= 50 then 1 else 0;
      RoundingError(nbytes, n, ui, r, low, tenth);
      if tenth == 10 {
        Carry(nbytes, n, Unit(ui));
        n, tenth := n + 1, 0;
      }
      size := Some(Rounded(n, tenth, UNITS[ui]));
    }
    assert Denotes(nbytes, ui, size.value);
  }

  /** 1024 to the seventh power, the smallest size without a letter. */
  lemma NoLetter()
    ensures TooLarge(0x40_0000_0000_0000_0000)
    ensures forall nbytes: nat :: nbytes < 0x40_0000_0000_0000_0000 ==> !TooLarge(nbytes)
  {
    SixthUnit();
    ReducedIsQuotient(0x40_0000_0000_0000_0000, 6);
    forall nbytes: nat | nbytes < 0x40_0000_0000_0000_0000 ensures !TooLarge(nbytes) {
      ReducedIsQuotient(nbytes, 6);
    }
  }
}
