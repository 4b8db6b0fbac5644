/** Exactly what is paid for every amount: the rounding of days, interest and return as one comparison. */
module LostFundReturnAnyAmount {
  import opened Rial
  import opened Decimals
  import opened LostFundReturn
  import opened LostFundReturnExact

  const LARGEST := 1000000000000000000000000

  /** A whole rial of yearly interest is this many parts of an exact return. */
  const PARTS_OF_INTEREST := 2400000000000.0

  /** The decimals the interest is kept with. */
  function InterestPlaces(withdrawn: nat, ticks: nat): nat {
    Places(Interest(withdrawn, ticks), 28)
  }

  /** The decimals its 365th is kept with. */
  function ReturnPlaces(withdrawn: nat, ticks: nat): nat {
    Places(Dec(Interest(withdrawn, ticks)) / 365.0, 28)
  }

  /** What the interest lacks of 365 times the exact floor, in units of its last decimal: what the rounded days take,
      less the fraction of a rial the exact return has. */
  function Shortfall(withdrawn: nat, ticks: nat): real {
    ((withdrawn * Taken(ticks)) as real / 75.0 / Ten(DayPlaces(ticks))
     - (withdrawn * ticks % PARTS) as real / PARTS_OF_INTEREST) * Ten(InterestPlaces(withdrawn, ticks))
  }

  /** So many units of the interest's last decimal are put back when its 365th is rounded. */
  function Slack(decimals: nat): nat {
    182 / TenInt(decimals)
  }

  /** The two roundings make up for the shortfall to so many rials above the exact floor. */
  predicate Reaches(withdrawn: nat, ticks: nat, more: int) {
    var interest, paid := InterestPlaces(withdrawn, ticks), ReturnPlaces(withdrawn, ticks);
    paid >= interest
    && var slack := Slack(paid - interest);
       var room := slack as real + 0.5 - (365 * more) as real * Ten(interest);
       if slack % 2 == 0 then Shortfall(withdrawn, ticks) <= room else Shortfall(withdrawn, ticks) < room
  }

  // ---- rounding reaches a whole number ----

  lemma NearestReaches(y: real, n: int)
    ensures Nearest(y) >= n <==> if n % 2 == 0 then y >= n as real - 0.5 else y > n as real - 0.5
  {
    hide Nearest;
    var below := y.Floor;
    assert below as real <= y < below as real + 1.0;
    NearestOf(y, below);
    if n <= below {
      assert n as real <= below as real;
    } else if n > below + 1 {
      assert n as real >= below as real + 2.0;
    }
  }

  lemma NearestOf(y: real, below: int)
    requires below == y.Floor
    ensures below <= Nearest(y) <= below + 1
    ensures Nearest(y) == below + 1 <==> if below % 2 == 0 then y - below as real > 0.5 else y - below as real >= 0.5
  {
  }

  lemma FloorReaches(y: real, n: int)
    ensures y.Floor >= n <==> y >= n as real
  {
  }

  /** A rounded value reaches a whole number exactly when its coefficient does. */
  lemma DecReaches(x: real, q: nat, n: nat, scaled: real, whole: nat)
    requires x >= 0.0 && Places(x, 28) == q && scaled == x * Ten(q) && whole == n * TenInt(q)
    ensures Dec(x).Floor >= n <==> Nearest(scaled) >= whole
  {
    hide Places, Nearest, Ten, TenInt, RoundTo;
    RoundedTimes(x, Ten(q));
    NearestSame(x * Ten(q), scaled);
    TenIsWhole(q);
    CoefficientReaches(Dec(x), Ten(q), TenInt(q), Nearest(scaled), n);
  }

  lemma CoefficientReaches(d: real, t: real, ten: nat, coefficient: int, n: nat)
    requires t > 0.0 && t == ten as real && d * t == coefficient as real
    ensures d.Floor >= n <==> coefficient >= n * ten
  {
    FloorReaches(d, n);
    WholeProduct(n, ten);
    Compare(d, n as real, t, coefficient as real, (n * ten) as real);
  }

  /** Dividing by 365 and rounding, against a whole number. */
  lemma YearReaches(interest: real, coefficient: int, p: nat, q: nat, n: nat)
    requires 1 <= p <= q && interest >= 0.0 && interest * Ten(p) == coefficient as real
    requires Places(interest / 365.0, 28) == q
    ensures Dec(interest / 365.0).Floor >= n <==> coefficient >= 365 * n * TenInt(p) - Slack(q - p)
  {
    hide Places, Nearest, Ten, TenInt, Dec, Slack;
    var x, whole := interest / 365.0, n * TenInt(q);
    NotNegative(x, 365.0);
    DecReaches(x, q, n, x * Ten(q), whole);
    EvenPower(n, q);
    ReachesEven(x * Ten(q), whole);
    Spread(interest, coefficient, p, q, n);
    WithinSlack(coefficient, 365 * n * TenInt(p), TenInt(q - p));
    SlackIs(q - p);
  }

  lemma ReachesEven(y: real, n: nat)
    requires n % 2 == 0
    ensures Nearest(y) >= n <==> y >= n as real - 0.5
  {
    hide Nearest;
    NearestReaches(y, n);
  }

  lemma SlackIs(k: nat)
    ensures Slack(k) == 182 / TenInt(k)
  {
  }

  lemma Spread(interest: real, coefficient: int, p: nat, q: nat, n: nat)
    requires p <= q && interest * Ten(p) == coefficient as real
    ensures TenInt(q - p) >= 1
    ensures interest / 365.0 * Ten(q) >= (n * TenInt(q)) as real - 0.5 <==>
            coefficient * TenInt(q - p) >= 365 * n * TenInt(p) * TenInt(q - p) - 182
  {
    hide Ten, TenInt;
    var k := TenInt(q - p);
    TenAdds(p, q - p);
    TenIsWhole(p);
    TenIsWhole(q);
    TenIsWhole(q - p);
    TenProduct(p, q);
    assert interest / 365.0 * Ten(q) * 365.0 == interest * Ten(q);
    Associates(interest, Ten(p), Ten(q - p));
    WholeTimes(coefficient, k);
    assert n * TenInt(q) == n * (TenInt(p) * k);
    Grouped(n, TenInt(p), k);
    AgainstWhole(interest / 365.0 * Ten(q), coefficient * k, n * TenInt(q));
  }

  lemma TenProduct(p: nat, q: nat)
    requires p <= q
    ensures TenInt(q) == TenInt(p) * TenInt(q - p) && TenInt(q - p) >= 1
  {
    hide Ten, TenInt;
    TenAdds(p, q - p);
    TenIsWhole(p);
    TenIsWhole(q);
    TenIsWhole(q - p);
    WholeProduct(TenInt(p), TenInt(q - p));
  }

  lemma Grouped(n: nat, a: nat, k: nat)
    ensures 365 * (n * (a * k)) == 365 * n * a * k
  {
  }

  lemma WholeTimes(m: int, n: nat)
    ensures (m * n) as real == m as real * n as real
  {
  }

  lemma AgainstWhole(y: real, scaled: int, whole: nat)
    requires y * 365.0 == scaled as real
    ensures y >= whole as real - 0.5 <==> scaled >= 365 * whole - 182
  {
  }

  lemma WithinSlack(c: int, whole: int, k: nat)
    requires k >= 1
    ensures c * k >= whole * k - 182 <==> c >= whole - 182 / k
  {
    var short := whole - c;
    assert whole * k - c * k == short * k;
    DividesInto(short, k);
  }

  lemma DividesInto(x: int, k: nat)
    requires k >= 1
    ensures x * k <= 182 <==> x <= 182 / k
  {
    var d := 182 / k;
    assert d * k <= 182 < (d + 1) * k;
    if x <= d {
      assert x * k <= d * k;
    } else {
      assert x * k >= (d + 1) * k;
    }
  }

  // ---- the interest, whatever its amount ----

  lemma ExactInterest(withdrawn: nat, ticks: nat)
    ensures withdrawn as real * 0.36 * (ticks as real / TICKS_PER_DAY as real) ==
            365.0 * Exact(withdrawn, ticks) as real + (withdrawn * ticks % PARTS) as real / PARTS_OF_INTEREST
  {
    ExactValue(withdrawn, ticks);
    var exact := withdrawn as real * 0.36 * (ticks as real / TICKS_PER_DAY as real);
    assert exact == 365.0 * (exact / 365.0);
  }

  lemma InterestIs(withdrawn: nat, ticks: nat)
    requires ticks <= MAX_DAYS * TICKS_PER_DAY
    ensures Interest(withdrawn, ticks) ==
            365.0 * Exact(withdrawn, ticks) as real + (withdrawn * ticks % PARTS) as real / PARTS_OF_INTEREST
            - (withdrawn * Taken(ticks)) as real / 75.0 / Ten(DayPlaces(ticks))
  {
    hide DayPlaces, ElapsedDays, Taken, Exact, Ten;
    DaysRounded(ticks);
    ExactInterest(withdrawn, ticks);
    var x, days, t := ticks as real / TICKS_PER_DAY as real, ElapsedDays(ticks), Ten(DayPlaces(ticks));
    var taken := (withdrawn * Taken(ticks)) as real;
    assert taken == withdrawn as real * Taken(ticks) as real;
    Scales(withdrawn as real, x, days, t, Taken(ticks) as real);
    Unscale(withdrawn as real * 0.36 * days, withdrawn as real * 0.36 * x, taken / 75.0, t);
  }

  lemma Unscale(a: real, b: real, c: real, t: real)
    requires t > 0.0 && a * t == b * t - c
    ensures a == b - c / t
  {
    Minus(b, a, t);
    Cancel(b - a, t);
  }

  lemma ShortfallIs(withdrawn: nat, ticks: nat)
    requires ticks <= MAX_DAYS * TICKS_PER_DAY
    ensures var t := Ten(InterestPlaces(withdrawn, ticks));
            Interest(withdrawn, ticks) * t ==
            365.0 * Exact(withdrawn, ticks) as real * t - Shortfall(withdrawn, ticks)
  {
    hide Interest, InterestPlaces, DayPlaces, Taken, Exact, Ten;
    InterestIs(withdrawn, ticks);
    var gap := (withdrawn * Taken(ticks)) as real / 75.0 / Ten(DayPlaces(ticks))
               - (withdrawn * ticks % PARTS) as real / PARTS_OF_INTEREST;
    Minus(365.0 * Exact(withdrawn, ticks) as real, gap, Ten(InterestPlaces(withdrawn, ticks)));
  }

  lemma InterestBounded(withdrawn: nat, ticks: nat)
    requires withdrawn <= LARGEST && ticks <= MAX_DAYS * TICKS_PER_DAY
    ensures 0.0 <= Interest(withdrawn, ticks) <= 3600360000000000000000000000.0
  {
    hide ElapsedDays;
    DaysNear(ticks);
    Bounded(withdrawn as real * 0.36, ElapsedDays(ticks), 360000000000000000000000.0, 10001.0);
  }

  /** The interest keeps a decimal at least, its coefficient fits, and its 365th keeps as many decimals. */
  lemma InterestFits(withdrawn: nat, ticks: nat) returns (coefficient: nat, scaled: real)
    requires withdrawn <= LARGEST && ticks <= MAX_DAYS * TICKS_PER_DAY
    ensures var p, interest := InterestPlaces(withdrawn, ticks), Dec(Interest(withdrawn, ticks));
            && 1 <= p <= ReturnPlaces(withdrawn, ticks) && interest >= 0.0
            && interest * Ten(p) == coefficient as real
            && scaled == Interest(withdrawn, ticks) * Ten(p) && coefficient == Nearest(scaled)
  {
    hide Places, Nearest, Ten, Dec, Interest;
    InterestBounded(withdrawn, ticks);
    var x := Interest(withdrawn, ticks);
    coefficient, scaled := CoefficientFits(x, Places(x, 28));
    YearKeeps(Dec(x), Places(x, 28), coefficient);
  }

  lemma CoefficientFits(x: real, p: nat) returns (coefficient: nat, scaled: real)
    requires 0.0 <= x <= 3600360000000000000000000000.0 && p == Places(x, 28)
    ensures 1 <= p && Dec(x) >= 0.0 && scaled == x * Ten(p) && coefficient == Nearest(scaled)
    ensures Dec(x) * Ten(p) == coefficient as real && coefficient as real <= MAX_COEFFICIENT
  {
    hide Places, Nearest, Ten, Dec;
    OneDecimal();
    EnoughPlaces(x, 1, 28);
    PlacesFit(x, 28, 1);
    PositiveTimes(x, Ten(p));
    scaled := x * Ten(p);
    NearestFits(scaled);
    DecTimes(x, p, scaled);
    coefficient := Nearest(scaled);
    AtLeast(x, 0);
  }

  lemma YearKeeps(interest: real, p: nat, coefficient: nat)
    requires p <= 28 && interest >= 0.0
    requires interest * Ten(p) == coefficient as real && coefficient as real <= MAX_COEFFICIENT
    ensures Places(interest / 365.0, 28) >= p
  {
    hide Places, Ten;
    var x := interest / 365.0;
    assert interest == 365.0 * x;
    assert x * Ten(p) * 365.0 == interest * Ten(p);
    EnoughPlaces(x, p, 28);
  }

  lemma OneDecimal()
    ensures Ten(1) == 10.0
  {
    assert Ten(0) == 1.0;
  }

  lemma NearestFits(y: real)
    requires 0.0 <= y <= MAX_COEFFICIENT
    ensures 0 <= Nearest(y) && Nearest(y) as real <= MAX_COEFFICIENT
  {
    assert MAX_COEFFICIENT == 79228162514264337593543950335 as real;
    assert y.Floor <= 79228162514264337593543950335;
  }

  // ---- the result ----

  lemma ReachedBy(x: real, coefficient: int, whole: int, slack: nat, shortfall: real, up: real)
    requires coefficient == Nearest(x) && whole % 2 == 0 && x == whole as real - up - shortfall
    ensures coefficient >= whole - slack <==>
            if slack % 2 == 0 then shortfall <= slack as real + 0.5 - up else shortfall < slack as real + 0.5 - up
  {
    hide Nearest;
    NearestReaches(x, whole - slack);
    assert (whole - slack) as real == whole as real - slack as real;
  }

  lemma Halves(n: nat, ten: nat)
    requires ten % 2 == 0
    ensures 365 * n * ten % 2 == 0
  {
    assert 365 * n * ten == 2 * (365 * n * (ten / 2));
  }

  lemma Sums(exact: nat, more: int, ten: nat)
    ensures (365 * (exact + more) * ten) as real ==
            365.0 * exact as real * ten as real + (365 * more) as real * ten as real
  {
    WholeTimes(365 * (exact + more), ten);
    assert (365 * (exact + more)) as real == 365.0 * exact as real + (365 * more) as real;
  }

  lemma TenIsEven(p: nat)
    requires p >= 1
    ensures TenInt(p) % 2 == 0
  {
    EvenPower(1, p);
  }

  /** For every amount that fits and every period up to ten thousand days: what is paid reaches a number of rials above
      or below the exact floor exactly when the comparison says so. */
  lemma PaysAtLeastIff(withdrawn: nat, ticks: nat, more: int)
    requires withdrawn <= LARGEST && ticks <= MAX_DAYS * TICKS_PER_DAY && Exact(withdrawn, ticks) + more >= 0
    ensures Payable(withdrawn as real, ticks) >= Exact(withdrawn, ticks) + more <==> Reaches(withdrawn, ticks, more)
  {
    hide Interest, InterestPlaces, ReturnPlaces, Shortfall, Slack, Exact, Nearest, Ten, TenInt, Dec, ExactReturn;
    var p, q := InterestPlaces(withdrawn, ticks), ReturnPlaces(withdrawn, ticks);
    var coefficient, scaled := InterestFits(withdrawn, ticks);
    var interest, exact := Dec(Interest(withdrawn, ticks)), Exact(withdrawn, ticks);
    ReturnIs(withdrawn, ticks);
    PlacesAre(withdrawn, ticks);
    YearReaches(interest, coefficient, p, q, exact + more);
    TenIsWhole(p);
    TenIsEven(p);
    ShortfallIs(withdrawn, ticks);
    Halves(exact + more, TenInt(p));
    Sums(exact, more, TenInt(p));
    ReachedBy(scaled, coefficient, 365 * (exact + more) * TenInt(p), Slack(q - p), Shortfall(withdrawn, ticks),
              (365 * more) as real * Ten(p));
  }

  lemma PlacesAre(withdrawn: nat, ticks: nat)
    ensures ReturnPlaces(withdrawn, ticks) == Places(Dec(Interest(withdrawn, ticks)) / 365.0, 28)
  {
    hide Dec, Places, Interest;
  }

  /** Up to a million billion rials it is the exact floor, one rial more or one rial less, and which of them is a matter
      of two comparisons. */
  lemma PaysByShortfall(withdrawn: nat, ticks: nat)
    requires withdrawn <= 1000000000000000 && ticks <= MAX_DAYS * TICKS_PER_DAY
    ensures Payable(withdrawn as real, ticks) ==
            Exact(withdrawn, ticks) + (if Reaches(withdrawn, ticks, 1) then 1
                                       else if Reaches(withdrawn, ticks, 0) then 0 else -1)
  {
    hide Exact, Payable, Reaches;
    OffByOneOnlyNextToAWholeRial(withdrawn, ticks);
    PaysAtLeastIff(withdrawn, ticks, 0);
    PaysAtLeastIff(withdrawn, ticks, 1);
  }
}
