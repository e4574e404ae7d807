/** The deterministic defect predictor of the dashboard (predecir_defectos in
    app.py): a maturity-dependent rate looked up in a dictionary with a
    default, applied to the estimated effort and truncated to an integer. */
module Predictor {
  import Simulation

  /** {4: 0.005, 3: 0.01}, in defects per 1000 hours of effort. */
  const FACTORS: map<int, int> := map[4 := 5, 3 := 10]

  /** The .get default, 0.02. */
  const DEFAULT_FACTOR := 20

  /** factor = FACTORS.get(madurez, 0.02), per 1000 hours. */
  function Factor(maturity: int): int {
    if maturity in FACTORS then FACTORS[maturity] else DEFAULT_FACTOR
  }

  /** Python's int() on a quotient: division truncating toward zero. */
  function TruncDiv(a: int, b: int): (q: int)
    requires b > 0
    ensures a >= 0 ==> 0 <= q && q * b <= a < (q + 1) * b
    ensures a < 0 ==> q <= 0 && (q - 1) * b < a <= q * b
  {
    if a >= 0 then DivBounds(a, b); a / b
    else DivBounds(-a, b); -((-a) / b)
  }

  /** Euclidean division of a non-negative number brackets it. */
  lemma DivBounds(a: int, b: int)
    requires a >= 0 && b > 0
    ensures 0 <= a / b && (a / b) * b <= a < (a / b + 1) * b
  {
    assert a == (a / b) * b + a % b;
  }

  /** int(esfuerzo * factor): the expected number of defects, rounded toward
      zero. Effort is an integer, as the number_input widget supplies it. */
  function PredictDefects(effort: int, maturity: int): (n: int)
    ensures effort >= 0 ==> 0 <= n && n * 1000 <= effort * Factor(maturity) < (n + 1) * 1000
    ensures effort < 0 ==> n <= 0 && (n - 1) * 1000 < effort * Factor(maturity) <= n * 1000
  {
    TruncDiv(effort * Factor(maturity), 1000)
  }

  /** The dictionary with its default is the same table as the generator's
      factor_base: 5, 10 and 20 defects per 1000 hours. */
  lemma {:induction false} RateTablesAgree(maturity: int)
    ensures Factor(maturity) == Simulation.DefectRatePerMille(maturity)
    ensures maturity == 4 ==> Factor(maturity) == 5
    ensures maturity == 3 ==> Factor(maturity) == 10
    ensures maturity != 3 && maturity != 4 ==> Factor(maturity) == 20
  {
    if maturity == 4 {
      assert maturity in FACTORS;
    } else if maturity == 3 {
      assert maturity in FACTORS;
    } else {
      assert maturity !in FACTORS;
    }
  }

  /** The prediction is the generator's Poisson mean N_esperado truncated to
      an integer: the two scripts agree on the expected defect count. */
  lemma PredictionTruncatesGeneratorMean(effort: int, maturity: int)
    requires effort >= 0
    ensures PredictDefects(effort, maturity) * 1000 <= Simulation.ExpectedDefectsPerMille(effort, maturity)
    ensures Simulation.ExpectedDefectsPerMille(effort, maturity) < (PredictDefects(effort, maturity) + 1) * 1000
  {
    RateTablesAgree(maturity);
  }

  /** For non-negative effort the prediction is an integer division:
      effort / 200 at maturity 4, effort / 100 at maturity 3 and effort / 50
      at every other maturity. */
  lemma {:induction false} PredictAsIntegerDivision(effort: int, maturity: int)
    requires effort >= 0
    ensures maturity == 4 ==> PredictDefects(effort, maturity) == effort / 200
    ensures maturity == 3 ==> PredictDefects(effort, maturity) == effort / 100
    ensures maturity != 3 && maturity != 4 ==> PredictDefects(effort, maturity) == effort / 50
  {
    RateTablesAgree(maturity);
    var n := PredictDefects(effort, maturity);
    if maturity == 4 {
      FloorUnique(effort, 200, n);
    } else if maturity == 3 {
      FloorUnique(effort, 100, n);
    } else {
      FloorUnique(effort, 50, n);
    }
  }

  /** n is a / b when n * b <= a < (n + 1) * b. */
  lemma FloorUnique(a: int, b: int, n: int)
    requires b > 0 && n * b <= a < (n + 1) * b
    ensures n == a / b
  {
    var q := a / b;
    assert q * b <= a < (q + 1) * b;
    if n < q {
      MulMonotone(n + 1, q, b);
    } else if q < n {
      MulMonotone(q + 1, n, b);
    }
  }

  lemma MulMonotone(x: int, y: int, b: int)
    requires x <= y && b > 0
    ensures x * b <= y * b
  {
    assert y * b - x * b == (y - x) * b;
  }

  /** A more mature process never predicts more defects, and every maturity
      other than 3 and 4 predicts like maturity 2. */
  lemma MaturityMonotone(effort: int, other: int)
    requires effort >= 0
    requires other != 3 && other != 4
    ensures PredictDefects(effort, 4) <= PredictDefects(effort, 3) <= PredictDefects(effort, 2)
    ensures PredictDefects(effort, other) == PredictDefects(effort, 2)
  {
    PredictAsIntegerDivision(effort, 4);
    PredictAsIntegerDivision(effort, 3);
    PredictAsIntegerDivision(effort, 2);
    PredictAsIntegerDivision(effort, other);
    DivByMultiple(effort, 100, 2);
    DivByMultiple(effort, 50, 2);
  }

  /** a / (b * k) is at most a / b for non-negative a. */
  lemma DivByMultiple(a: int, b: int, k: int)
    requires a >= 0 && b > 0 && k >= 1
    ensures a / (b * k) <= a / b
  {
    var q := a / (b * k);
    assert q * (b * k) <= a;
    assert q * (b * k) == (q * k) * b;
    assert q >= 0;
    MulMonotone(q, q * k, 1);
    assert q <= q * k;
    MulMonotone(q, q * k, b);
    FloorAtLeast(a, b, q);
  }

  /** a / b is at least n when n * b <= a. */
  lemma FloorAtLeast(a: int, b: int, n: int)
    requires b > 0 && n * b <= a
    ensures n <= a / b
  {
    var q := a / b;
    assert a < (q + 1) * b;
    if q + 1 <= n {
      MulMonotone(q + 1, n, b);
    }
  }

  /** More effort never predicts fewer defects. */
  lemma EffortMonotone(e1: int, e2: int, maturity: int)
    requires e1 <= e2
    ensures PredictDefects(e1, maturity) <= PredictDefects(e2, maturity)
  {
    RateTablesAgree(maturity);
    var f := Factor(maturity);
    MulMonotone(e1, e2, f);
    var n1, n2 := PredictDefects(e1, maturity), PredictDefects(e2, maturity);
    if n2 < n1 {
      MulMonotone(n2 + 1, n1, 1000);
    }
  }

  /** The figures the dashboard shows for the default input and two others. */
  lemma Examples()
    ensures PredictDefects(1500, 3) == 15
    ensures PredictDefects(1500, 4) == 7
    ensures PredictDefects(800, 99) == 16
    ensures PredictDefects(1500, 2) == 30
  {
    PredictAsIntegerDivision(1500, 3);
    PredictAsIntegerDivision(1500, 4);
    PredictAsIntegerDivision(800, 99);
    PredictAsIntegerDivision(1500, 2);
  }

  /** st.number_input("Esfuerzo Estimado (Horas)", 100, 10000) and
      st.selectbox over [2, 3, 4]. */
  predicate WidgetInput(effort: int, maturity: int) {
    100 <= effort <= 10000 && maturity in {2, 3, 4}
  }

  /** Every input the simulator widgets accept predicts between 0 and 200
      defects, and both ends are reached. */
  lemma WidgetRange(effort: int, maturity: int)
    requires WidgetInput(effort, maturity)
    ensures 0 <= PredictDefects(effort, maturity) <= 200
    ensures PredictDefects(100, 4) == 0 && PredictDefects(10000, 2) == 200
  {
    EffortMonotone(effort, 10000, maturity);
    MaturityMonotone(10000, 2);
    PredictAsIntegerDivision(10000, 2);
    PredictAsIntegerDivision(100, 4);
  }
}
