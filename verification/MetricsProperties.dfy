/** What the performance packet means, independently of how it is accumulated. */
module MetricsProperties {
  import opened Wrappers
  import opened Sequences
  import opened Trades
  import opened Metrics

  // ---- Drawdown in R: one pass equals the quadratic definition -------------

  lemma {:induction false} PeakIsHighest(v: seq<real>)
    ensures forall i :: 0 <= i <= |v| ==> Sum(v[..i]) <= PeakR(v)
    ensures exists i :: 0 <= i <= |v| && Sum(v[..i]) == PeakR(v)
  {
    if |v| == 0 {
      assert Sum(v[..0]) == 0.0;
    } else {
      var init := v[..|v| - 1];
      PeakIsHighest(init);
      forall i | 0 <= i < |v| ensures init[..i] == v[..i] {}
      assert v[..|v|] == v;
      forall i | 0 <= i <= |v| ensures Sum(v[..i]) <= PeakR(v) {
        if i < |v| { assert init[..i] == v[..i]; }
      }
      var k :| 0 <= k <= |init| && Sum(init[..k]) == PeakR(init);
      assert Sum(v[..k]) == PeakR(init);
      assert Sum(v[..|v|]) == Sum(v);
    }
  }

  /** The fall of cumulative R from position `i` to position `j`. */
  function FallR(v: seq<real>, i: nat, j: nat): real
    requires i <= |v| && j <= |v|
  {
    Sum(v[..i]) - Sum(v[..j])
  }

  /** `DrawdownR` is the largest fall of cumulative R over all pairs `i <= j`, with `P_0 = 0`. */
  lemma {:induction false} DrawdownIsQuadratic(v: seq<real>)
    ensures forall i, j :: 0 <= i <= j <= |v| ==> FallR(v, i, j) <= DrawdownR(v)
    ensures exists i, j :: 0 <= i <= j <= |v| && FallR(v, i, j) == DrawdownR(v)
  {
    if |v| == 0 {
      assert FallR(v, 0, 0) == 0.0;
    } else {
      var init := v[..|v| - 1];
      DrawdownIsQuadratic(init);
      PeakIsHighest(v);
      assert v[..|v|] == v;
      forall i, j | 0 <= i <= j <= |v| ensures FallR(v, i, j) <= DrawdownR(v) {
        if j < |v| { FallRInit(v, i, j); }
      }
      var i, j :| 0 <= i <= j <= |init| && FallR(init, i, j) == DrawdownR(init);
      FallRInit(v, i, j);
      var k :| 0 <= k <= |v| && Sum(v[..k]) == PeakR(v);
      assert FallR(v, k, |v|) == PeakR(v) - Sum(v);
    }
  }

  lemma FallRInit(v: seq<real>, i: nat, j: nat)
    requires i <= j < |v|
    ensures FallR(v, i, j) == FallR(v[..|v| - 1], i, j)
  {
    assert v[..|v| - 1][..i] == v[..i] && v[..|v| - 1][..j] == v[..j];
  }

  // ---- Fractional drawdown -------------------------------------------------

  lemma CompoundNonNegative(equity: real, value: real, f: real)
    requires equity >= 0.0
    ensures Compound(equity, value, f) >= 0.0
  {}

  lemma {:induction false} EquityBounds(v: seq<real>, f: real)
    ensures 0.0 <= Equity(v, f) <= PeakEquity(v, f)
    ensures PeakEquity(v, f) >= 1.0
    ensures forall i :: 0 <= i <= |v| ==> Equity(v[..i], f) <= PeakEquity(v, f)
    ensures exists i :: 0 <= i <= |v| && Equity(v[..i], f) == PeakEquity(v, f)
  {
    assert v[..|v|] == v;
    if |v| == 0 {
      assert Equity(v[..0], f) == 1.0;
    } else {
      var init := v[..|v| - 1];
      EquityBounds(init, f);
      CompoundNonNegative(Equity(init, f), v[|v| - 1], f);
      forall i | 0 <= i <= |v| ensures Equity(v[..i], f) <= PeakEquity(v, f) {
        if i < |v| { assert init[..i] == v[..i]; }
      }
      var k :| 0 <= k <= |init| && Equity(init[..k], f) == PeakEquity(init, f);
      assert init[..k] == v[..k];
    }
  }

  /** The relative fall of compounded equity from position `i` to position `j`. */
  function Fall(v: seq<real>, f: real, i: nat, j: nat): real
    requires i <= |v| && j <= |v|
  {
    WorseFall(0.0, Equity(v[..i], f), Equity(v[..j], f))
  }

  lemma FallMonotone(low: real, high: real, equity: real)
    requires 0.0 <= low <= high && high > 0.0 && equity >= 0.0
    ensures WorseFall(0.0, low, equity) <= WorseFall(0.0, high, equity)
    ensures 0.0 <= WorseFall(0.0, high, equity) <= 1.0
  {
    if low > 0.0 {
      QuotientOfFall(low, equity);
      QuotientAntitone(equity, low, high);
    }
    QuotientOfFall(high, equity);
    assert equity / high >= 0.0;
  }

  lemma QuotientOfFall(a: real, b: real)
    requires a > 0.0
    ensures (a - b) / a == 1.0 - b / a
  {
    var q, r := b / a, (a - b) / a;
    assert q * a == b && r * a == a - b;
    ZeroProduct(r - (1.0 - q), a);
  }

  lemma ZeroProduct(x: real, a: real)
    requires a > 0.0 && x * a == 0.0
    ensures x == 0.0
  {
    assert x > 0.0 ==> x * a > 0.0;
    assert x < 0.0 ==> x * a < 0.0;
  }

  lemma QuotientAntitone(x: real, a: real, b: real)
    requires x >= 0.0 && 0.0 < a <= b
    ensures x / b <= x / a
  {
    var q := x / a;
    assert q * a == x;
    assert q * b >= q * a;
    assert x / b <= (q * b) / b == q;
  }

  /** The reported drawdown is the worst relative fall over all `i <= j`, and lies in [0, 1]. */
  lemma {:induction false} DrawdownFractionIsQuadratic(v: seq<real>, f: real)
    ensures 0.0 <= DrawdownFraction(v, f) <= 1.0
    ensures forall i, j :: 0 <= i <= j <= |v| ==> Fall(v, f, i, j) <= DrawdownFraction(v, f)
    ensures exists i, j :: 0 <= i <= j <= |v| && Fall(v, f, i, j) == DrawdownFraction(v, f)
  {
    if |v| == 0 {
      assert Fall(v, f, 0, 0) == 0.0;
    } else {
      var init := v[..|v| - 1];
      var last := Equity(v, f);
      DrawdownFractionIsQuadratic(init, f);
      EquityBounds(v, f);
      assert v[..|v|] == v;
      FallMonotone(PeakEquity(v, f), PeakEquity(v, f), last);
      assert DrawdownFraction(v, f) == MaxReal(DrawdownFraction(init, f), WorseFall(0.0, PeakEquity(v, f), last));
      forall i, j | 0 <= i <= j <= |v| ensures Fall(v, f, i, j) <= DrawdownFraction(v, f) {
        if j < |v| {
          FallInit(v, f, i, j);
        } else {
          EquityBounds(v[..i], f);
          FallMonotone(Equity(v[..i], f), PeakEquity(v, f), last);
        }
      }
      if DrawdownFraction(v, f) == DrawdownFraction(init, f) {
        var i, j :| 0 <= i <= j <= |init| && Fall(init, f, i, j) == DrawdownFraction(init, f);
        FallInit(v, f, i, j);
      } else {
        var k :| 0 <= k <= |v| && Equity(v[..k], f) == PeakEquity(v, f);
        assert Fall(v, f, k, |v|) == DrawdownFraction(v, f);
      }
    }
  }

  lemma FallInit(v: seq<real>, f: real, i: nat, j: nat)
    requires i <= j < |v|
    ensures Fall(v, f, i, j) == Fall(v[..|v| - 1], f, i, j)
  {
    assert v[..|v| - 1][..i] == v[..i] && v[..|v| - 1][..j] == v[..j];
  }

  // ---- Availability ---------------------------------------------------------

  lemma {:induction false} ValidRows(trades: seq<Trade>, field: ReturnField)
    ensures |Rows(trades, field)| == |trades| <==> forall t :: t in trades ==> Defect(t, field).None?
    ensures |Rows(trades, field)| <= |trades|
  {
    if |trades| > 0 {
      ValidRows(trades[..|trades| - 1], field);
      assert trades == trades[..|trades| - 1] + [trades[|trades| - 1]];
    }
  }

  /** The net return is the gross one less fee and slippage plus funding, all of them given, up to a billionth. */
  predicate Reconciled(t: Trade) {
    && t.executionCosts.Some? && t.realizedR.Some? && t.netRealizedR.Some?
    && var c := t.executionCosts.value;
       && c.complete && c.httpsProvenance
       && c.fee.Some? && c.funding.Some? && c.slippage.Some? && c.fee.value >= 0.0 && c.slippage.value >= 0.0
       && var error := t.netRealizedR.value - (t.realizedR.value - c.fee.value - c.slippage.value + c.funding.value);
          -0.000000001 <= error <= 0.000000001
  }

  /** The basis costs are stated on; costs that state none are realised. */
  function StatedBasis(t: Trade): Basis {
    if t.executionCosts.None? then Unrecognised
    else if t.executionCosts.value.basis.Some? then t.executionCosts.value.basis.value
    else Realized
  }

  predicate SettlesInTime(t: Trade) { t.exitTimestamp.Some? ==> t.exitTimestamp.value >= t.timestamp }

  /** A trade that a packet can be computed from. */
  predicate Usable(t: Trade, field: ReturnField) {
    && SettlesInTime(t)
    && match field
       case RealizedField => t.realizedR.Some?
       case NetField => Reconciled(t) && StatedBasis(t) != Unrecognised
  }

  lemma ReconciledMeans(t: Trade)
    ensures CostsReconcile(t) && t.netRealizedR.Some? <==> Reconciled(t)
    ensures BasisOf(t) == StatedBasis(t)
  {}

  lemma DefectMeans(t: Trade, field: ReturnField)
    ensures Defect(t, field).None? <==> Usable(t, field)
  {
    hide CostsReconcile, Reconciled, BasisOf, StatedBasis;
    ReconciledMeans(t);
    CostsNeedACostRecord(t);
  }

  lemma CostsNeedACostRecord(t: Trade)
    ensures CostsReconcile(t) ==> t.executionCosts.Some? && t.netRealizedR.Some?
  {}

  /** Net returns are only summarised over one common cost basis. */
  ghost predicate OneBasis(trades: seq<Trade>) {
    forall a, b :: a in trades && b in trades ==> StatedBasis(a) == StatedBasis(b)
  }

  lemma AtMostOne<T>(s: set<T>)
    ensures |s| <= 1 <==> forall a, b :: a in s && b in s ==> a == b
  {
    if |s| > 1 {
      var a :| a in s;
      assert |s - {a}| == |s| - 1;
      var b :| b in s - {a};
      assert a in s && b in s;
    }
    forall a, b | a in s && b in s && a != b ensures |s| > 1 {
      SubsetSize({a, b}, s);
    }
  }

  lemma {:induction false} SubsetSize<T>(a: set<T>, b: set<T>)
    requires a <= b
    ensures |a| <= |b|
  {
    if a != {} {
      var x :| x in a;
      SubsetSize(a - {x}, b - {x});
    }
  }

  /** The packet is available exactly for non-empty, fully usable, single-basis input. */
  lemma AvailableExactly(trades: seq<Trade>, field: ReturnField, f: real)
    ensures Performance(trades, field, f).Available? <==>
              && |trades| > 0
              && (forall t :: t in trades ==> Usable(t, field))
              && (field.NetField? ==> OneBasis(trades))
  {
    hide Usable;
    ValidRows(trades, field);
    forall t ensures Defect(t, field).None? <==> Usable(t, field) {
      DefectMeans(t, field);
    }
    var bases := Bases(trades, field);
    AtMostOne(bases);
    assert (forall t :: t in trades ==> Defect(t, field).None?) <==> Reasons(trades, field) == {} by {
      forall t | t in trades && Defect(t, field).Some? ensures Defect(t, field).value in Reasons(trades, field) {}
    }
    if forall t :: t in trades ==> Defect(t, field).None? {
      if field.NetField? {
        assert forall t :: t in trades ==> BasisOf(t) in bases;
        forall t | t in trades ensures BasisOf(t) == StatedBasis(t) { ReconciledMeans(t); }
      }
    }
  }

  /** The return a packet is computed from. */
  function FieldOf(t: Trade, field: ReturnField): Option<real> { if field.NetField? then t.netRealizedR else t.realizedR }

  /** The defect validation finds first. */
  predicate Shows(t: Trade, field: ReturnField, reason: Reason) {
    match reason
    case MissingReturn => FieldOf(t, field).None?
    case UnreconciledCosts => field.NetField? && t.netRealizedR.Some? && !Reconciled(t)
    case MissingBasis => field.NetField? && Reconciled(t) && StatedBasis(t) == Unrecognised
    case InvalidTimestamps => !SettlesInTime(t) && Usable(t.(exitTimestamp := None), field)
    case _ => false
  }

  lemma ShowsItsDefect(t: Trade, field: ReturnField, reason: Reason)
    ensures Shows(t, field, reason) <==> Defect(t, field) == Some(reason)
  {
    hide CostsReconcile, Reconciled, BasisOf, StatedBasis;
    ReconciledMeans(t);
    ReconciledMeans(t.(exitTimestamp := None));
    CostsNeedACostRecord(t);
    ExitIsNoCost(t);
  }

  lemma ExitIsNoCost(t: Trade)
    ensures var u := t.(exitTimestamp := None);
            Reconciled(u) == Reconciled(t) && StatedBasis(u) == StatedBasis(t)
    ensures Reconciled(t) ==> t.executionCosts.Some? && t.netRealizedR.Some?
  {}

  /** Two trades whose costs are in order are stated on different bases. */
  ghost predicate Mixed(trades: seq<Trade>) {
    exists a, b :: a in trades && b in trades && OnABasis(a) && OnABasis(b) && StatedBasis(a) != StatedBasis(b)
  }

  predicate OnABasis(t: Trade) { Reconciled(t) && StatedBasis(t) != Unrecognised }

  /** An unavailable packet names the defects there are and counts the trades it could not use. */
  lemma UnavailableSays(trades: seq<Trade>, field: ReturnField, f: real, reason: Reason)
    requires Performance(trades, field, f).Unavailable?
    ensures var p := Performance(trades, field, f);
            && p.rejectedTrades == |trades| - |Filter(trades, (t: Trade) => Usable(t, field))|
            && (reason in p.reasons <==>
                  match reason
                  case NoTrades => trades == []
                  case MixedBases => field.NetField? && Mixed(trades)
                  case _ => exists t :: t in trades && Shows(t, field, reason))
  {
    hide Usable, Shows, Defect, Reconciled, StatedBasis;
    forall t ensures Defect(t, field).None? <==> Usable(t, field) { DefectMeans(t, field); }
    FilterCongruent(trades, Valid(field), (t: Trade) => Usable(t, field));
    ValidRows(trades, field);
    ReasonsAreDefects(trades, field, reason);
    MixedMeans(trades, field);
  }

  lemma ReasonsAreDefects(trades: seq<Trade>, field: ReturnField, reason: Reason)
    ensures reason in Reasons(trades, field) <==> exists t :: t in trades && Shows(t, field, reason)
    ensures MixedBases !in Reasons(trades, field) && NoTrades !in Reasons(trades, field)
  {
    hide Defect, Shows;
    forall t, r ensures Shows(t, field, r) <==> Defect(t, field) == Some(r) { ShowsItsDefect(t, field, r); }
    if reason in Reasons(trades, field) {
      var t :| t in trades && Defect(t, field) == Some(reason);
      assert Shows(t, field, reason);
    }
    NeverShown(field);
  }

  lemma NeverShown(field: ReturnField)
    ensures forall t :: !Shows(t, field, MixedBases) && !Shows(t, field, NoTrades)
  {}

  lemma MixedMeans(trades: seq<Trade>, field: ReturnField)
    ensures |Bases(trades, field)| > 1 <==> field.NetField? && Mixed(trades)
  {
    hide Reconciled, StatedBasis, Defect, BasisOf;
    var bases := Bases(trades, field);
    AtMostOne(bases);
    forall t ensures field.NetField? ==> (NotesBasis(t, field) <==> OnABasis(t)) && (OnABasis(t) ==> BasisOf(t) == StatedBasis(t)) {
      NotesMeans(t);
    }
    if |bases| > 1 {
      var x, y :| x in bases && y in bases && x != y;
      var a :| a in trades && NotesBasis(a, field) && BasisOf(a) == x;
      var b :| b in trades && NotesBasis(b, field) && BasisOf(b) == y;
    }
    if field.NetField? && Mixed(trades) {
      var a, b :| a in trades && b in trades && OnABasis(a) && OnABasis(b) && StatedBasis(a) != StatedBasis(b);
      assert BasisOf(a) in bases && BasisOf(b) in bases;
    }
  }

  lemma NotesMeans(t: Trade)
    ensures NotesBasis(t, NetField) <==> OnABasis(t)
    ensures OnABasis(t) ==> BasisOf(t) == StatedBasis(t)
  {
    hide CostsReconcile, Reconciled, BasisOf, StatedBasis;
    ReconciledMeans(t);
    CostsNeedACostRecord(t);
    ExitIsNoCost(t);
  }

  // ---- What an available packet says -----------------------------------------

  function Positive(): real -> bool { x => x > 0.0 }

  function Negative(): real -> bool { x => x < 0.0 }

  lemma SumAppend(v: seq<real>, x: real)
    ensures Sum(v + [x]) == Sum(v) + x
  {
    assert (v + [x])[..|v|] == v;
  }

  /** Gains and losses are the sums of the positive and of the negative returns, and differ by the total. */
  lemma {:induction false} GainsAndLosses(v: seq<real>)
    ensures Gains(v) == Sum(Filter(v, Positive())) && Losses(v) == -Sum(Filter(v, Negative()))
    ensures Gains(v) - Losses(v) == Sum(v)
  {
    if |v| > 0 {
      var init, x := v[..|v| - 1], v[|v| - 1];
      GainsAndLosses(init);
      SumAppend(Filter(init, Positive()), x);
      SumAppend(Filter(init, Negative()), x);
    }
  }

  lemma {:induction false} NoLossesExactly(v: seq<real>)
    ensures Losses(v) >= 0.0
    ensures Losses(v) == 0.0 <==> forall x :: x in v ==> x >= 0.0
  {
    if |v| > 0 {
      var init, last := v[..|v| - 1], v[|v| - 1];
      NoLossesExactly(init);
      assert v == init + [last];
      assert forall x :: x in v <==> x in init || x == last;
      if last >= 0.0 && Losses(init) == 0.0 {
        assert forall x :: x in v ==> x >= 0.0;
      } else if Losses(init) != 0.0 {
        var x :| x in init && x < 0.0;
        assert x in v;
      } else {
        assert last in v;
      }
    } else {
      assert v == [];
    }
  }

  // ---- Curves ------------------------------------------------------------------

  /** Equity from one on, multiplied by each trade's factor, and nothing once a factor is negative. */
  ghost predicate Compounds(e: seq<real>, v: seq<real>, f: real) {
    && |e| == |v| + 1 && e[0] == 1.0
    && forall i :: 0 <= i < |v| ==> e[i + 1] == Grown(e[i], v[i], f)
  }

  function Grown(equity: real, value: real, f: real): real {
    if 1.0 + value * f >= 0.0 then equity * (1.0 + value * f) else 0.0
  }

  /** `d` is the largest fall between two points of the curve, in order. */
  ghost predicate WorstFall(c: seq<real>, d: real) {
    && (forall i, j :: 0 <= i <= j < |c| ==> c[i] - c[j] <= d)
    && exists i, j :: 0 <= i <= j < |c| && c[i] - c[j] == d
  }

  /** `d` is the largest fall between two points of the curve, in order, as a share of the first. */
  ghost predicate WorstShare(e: seq<real>, d: real) {
    && (forall i, j :: 0 <= i <= j < |e| && e[i] > 0.0 ==> LosesAtMost(e[i], e[j], d))
    && exists i, j :: 0 <= i <= j < |e| && e[i] > 0.0 && Loses(e[i], e[j], d)
  }

  predicate LosesAtMost(before: real, after: real, share: real) { before - after <= share * before }

  predicate Loses(before: real, after: real, share: real) { before - after == share * before }

  function EquityCurve(v: seq<real>, f: real): (e: seq<real>)
    ensures |e| == |v| + 1
  {
    seq(|v| + 1, i requires 0 <= i <= |v| => Equity(v[..i], f))
  }

  function SumCurve(v: seq<real>): (c: seq<real>)
    ensures |c| == |v| + 1
  {
    seq(|v| + 1, i requires 0 <= i <= |v| => Sum(v[..i]))
  }

  lemma EquityCompounds(v: seq<real>, f: real)
    ensures Compounds(EquityCurve(v, f), v, f) && EquityCurve(v, f)[|v|] == Equity(v, f)
  {
    hide Grown, Compound, Equity;
    assert v[..|v|] == v;
    NoReturns(f);
    forall i | 0 <= i < |v| ensures Equity(v[..i + 1], f) == Grown(Equity(v[..i], f), v[i], f) {
      CompoundingStep(v, i, f);
      CompoundMeans(Equity(v[..i], f), v[i], f);
    }
  }

  lemma CompoundMeans(equity: real, value: real, f: real)
    ensures Compound(equity, value, f) == Grown(equity, value, f)
  {}

  lemma NoReturns(f: real)
    ensures Equity([], f) == 1.0
  {}

  lemma SumCurveSums(v: seq<real>)
    ensures SumsUp(SumCurve(v), v) && SumCurve(v)[|v|] == Sum(v) && IsSum(v, Sum(v))
  {
    hide Sum;
    assert v[..|v|] == v && v[..0] == [];
    NoSum();
    forall i | 0 <= i < |v| ensures Sum(v[..i + 1]) == Sum(v[..i]) + v[i] {
      OneMoreSum(v, i);
    }
    var c := SumCurve(v);
    assert SumsUp(c, v) && c[|v|] == Sum(v);
  }

  lemma OneMoreSum(v: seq<real>, i: nat)
    requires i < |v|
    ensures Sum(v[..i + 1]) == Sum(v[..i]) + v[i]
  {
    assert v[..i + 1][..i] == v[..i];
  }

  lemma NoSum()
    ensures Sum([]) == 0.0
  {}

  lemma WorstFallOfSums(v: seq<real>)
    ensures WorstFall(SumCurve(v), DrawdownR(v))
  {
    DrawdownIsQuadratic(v);
    var c := SumCurve(v);
    forall i, j | 0 <= i <= j < |c| ensures c[i] - c[j] <= DrawdownR(v) {
      assert c[i] - c[j] == FallR(v, i, j);
    }
    var i, j :| 0 <= i <= j <= |v| && FallR(v, i, j) == DrawdownR(v);
    assert c[i] - c[j] == DrawdownR(v);
  }

  lemma ShareMeans(a: real, b: real, d: real)
    requires a > 0.0 && d >= 0.0
    ensures WorseFall(0.0, a, b) <= d <==> LosesAtMost(a, b, d)
    ensures d > 0.0 ==> (WorseFall(0.0, a, b) == d <==> Loses(a, b, d))
  {
    var q := (a - b) / a;
    assert q * a == a - b;
    if q < d { assert q * a < d * a; } else if q > d { assert q * a > d * a; }
    assert d * a >= 0.0;
  }

  lemma WorstShareOfEquity(v: seq<real>, f: real)
    ensures WorstShare(EquityCurve(v, f), DrawdownFraction(v, f))
  {
    hide Equity, DrawdownFraction, Compound, WorseFall, Loses, LosesAtMost;
    DrawdownFractionIsQuadratic(v, f);
    EquityCompounds(v, f);
    var e, d := EquityCurve(v, f), DrawdownFraction(v, f);
    forall i, j | 0 <= i <= j < |e| && e[i] > 0.0 ensures LosesAtMost(e[i], e[j], d) {
      assert Fall(v, f, i, j) <= d;
      ShareMeans(e[i], e[j], d);
    }
    if d == 0.0 {
      StandingStill();
      assert Loses(e[0], e[0], d);
    } else {
      var i, j :| 0 <= i <= j <= |v| && Fall(v, f, i, j) == d;
      NoFallFromNothing(e[i], e[j]);
      ShareMeans(e[i], e[j], d);
    }
  }

  lemma StandingStill()
    ensures Loses(1.0, 1.0, 0.0)
  {}

  lemma NoFallFromNothing(a: real, b: real)
    ensures a <= 0.0 ==> WorseFall(0.0, a, b) == 0.0
  {}

  // ---- What is published ------------------------------------------------------------

  /** The returns `v` taken in order come to the packet's figures: totals, cumulative R and compounded equity. */
  ghost predicate Describes(p: Packet, v: seq<real>, f: real)
    requires p.Available? && |v| > 0
  {
    p.sampleSize == |v| && Totals(p, v) && FallsInR(p, v) && Grows(p, v, f)
  }

  ghost predicate Totals(p: Packet, v: seq<real>)
    requires p.Available? && |v| > 0
  {
    && (exists total :: IsSum(v, total) && p.expectancyR == Mean(total, |v|))
    && (exists won, lost :: Split(v, won, lost) && Balance(p, won, lost))
    && (p.profitFactor.None? <==> forall x :: x in v ==> x >= 0.0)
  }

  function Mean(total: real, n: nat): real
    requires n > 0
  {
    Round6(total / n as real)
  }

  /** Profit, loss and, if anything was lost, their quotient. */
  predicate Balance(p: Packet, won: real, lost: real)
    requires p.Available?
  {
    && p.grossProfitR == Round6(won) && p.grossLossR == Round6(lost)
    && p.profitFactor == if lost > 0.0 then Some(Round6(won / lost)) else None
  }

  ghost predicate FallsInR(p: Packet, v: seq<real>)
    requires p.Available?
  {
    exists c, d :: SumsUp(c, v) && WorstFall(c, d) && p.maxDrawdownR == Round6(d)
  }

  /** The ending multiple is where the curve ends, the drawdown its largest relative fall in percent. */
  ghost predicate Grows(p: Packet, v: seq<real>, f: real)
    requires p.Available?
  {
    exists e, d :: Compounds(e, v, f) && WorstShare(e, d)
      && p.maxDrawdownPct == Round6(d * 100.0) && p.endingEquityMultiple == Round(e[|v|], 100000000.0)
  }

  /** What was won and what was lost, each counted positive. */
  ghost predicate Split(v: seq<real>, won: real, lost: real) {
    IsSum(Filter(v, Positive()), won) && IsSum(Filter(v, Negative()), -lost)
  }

  lemma SummaryDescribes(v: seq<real>, f: real, basis: Option<Basis>)
    requires |v| > 0
    ensures Describes(Summarise(v, f, basis), v, f)
  {
    hide Totals, FallsInR, Grows, Round;
    TotalsDescribed(v, f, basis);
    FallsDescribed(v, f, basis);
    GrowthDescribed(v, f, basis);
  }

  lemma TotalsDescribed(v: seq<real>, f: real, basis: Option<Basis>)
    requires |v| > 0
    ensures Totals(Summarise(v, f, basis), v)
  {
    hide Summarise, IsSum, Split, Balance, Mean, Sum, Gains, Losses;
    NoLossesExactly(v);
    SumCurveSums(v);
    WonAndLost(v);
    SummaryBalances(v, f, basis);
  }

  lemma SummaryBalances(v: seq<real>, f: real, basis: Option<Basis>)
    requires |v| > 0
    ensures var p := Summarise(v, f, basis);
            p.Available? && p.expectancyR == Mean(Sum(v), |v|) && Balance(p, Gains(v), Losses(v))
            && (p.profitFactor.None? <==> Losses(v) <= 0.0)
  {
    hide Round, Equity, DrawdownR, DrawdownFraction, Sum, Gains, Losses;
  }

  lemma WonAndLost(v: seq<real>)
    ensures Split(v, Gains(v), Losses(v))
  {
    hide IsSum, SumCurve, Sum, Gains, Losses, Filter;
    GainsAndLosses(v);
    SumCurveSums(Filter(v, Positive()));
    SumCurveSums(Filter(v, Negative()));
    assert Sum(Filter(v, Negative())) == -Losses(v);
  }

  lemma FallsDescribed(v: seq<real>, f: real, basis: Option<Basis>)
    requires |v| > 0
    ensures FallsInR(Summarise(v, f, basis), v)
  {
    hide Round, Equity, WorstFall, SumsUp, SumCurve, DrawdownR, DrawdownFraction, Sum, Gains, Losses;
    SumCurveSums(v);
    WorstFallOfSums(v);
    var p := Summarise(v, f, basis);
    assert p.maxDrawdownR == Round6(DrawdownR(v));
    assert SumsUp(SumCurve(v), v) && WorstFall(SumCurve(v), DrawdownR(v));
  }

  lemma GrowthDescribed(v: seq<real>, f: real, basis: Option<Basis>)
    requires |v| > 0
    ensures Grows(Summarise(v, f, basis), v, f)
  {
    hide Round, Equity, Compounds, WorstShare, EquityCurve, DrawdownR, DrawdownFraction, Sum, Gains, Losses;
    EquityCompounds(v, f);
    WorstShareOfEquity(v, f);
    var p, e := Summarise(v, f, basis), EquityCurve(v, f);
    CurveLength(v, f);
    assert p.maxDrawdownPct == Round6(DrawdownFraction(v, f) * 100.0) && p.endingEquityMultiple == Round(e[|v|], 100000000.0);
  }

  lemma CurveLength(v: seq<real>, f: real)
    ensures |EquityCurve(v, f)| == |v| + 1
  {}

  /** Rounding gives the nearest multiple of the unit, the even one of two that are equally near. */
  lemma RoundIsNearest(x: real, scale: real)
    requires scale > 0.0
    ensures exists n: int :: Nearest(x, scale, n) && Round(x, scale) == n as real / scale
  {
    var low := (x * scale).Floor;
    var rest := x * scale - low as real;
    var n := if rest < 0.5 then low else if rest > 0.5 then low + 1 else if low % 2 == 0 then low else low + 1;
    assert Nearest(x, scale, n);
  }

  predicate Nearest(x: real, scale: real, n: int) {
    var d := x * scale - n as real;
    -0.5 <= d <= 0.5 && (d == 0.5 || d == -0.5 ==> n % 2 == 0)
  }

  /** What a packet reads of a trade: when it left, when it was signalled, its symbol and its return. */
  function Returned(field: ReturnField): Trade -> Row {
    (t: Trade) => Row(if t.exitTimestamp.Some? then t.exitTimestamp.value else t.timestamp, t.timestamp, t.symbol,
                      FieldOf(t, field).GetOr(0.0))
  }

  predicate NotLater(a: Row, b: Row) {
    || a.exit < b.exit
    || (a.exit == b.exit && a.entry < b.entry)
    || (a.exit == b.exit && a.entry == b.entry && a.symbol != b.symbol && StringLe(a.symbol, b.symbol))
    || (a.exit == b.exit && a.entry == b.entry && a.symbol == b.symbol && a.value <= b.value)
  }

  ghost predicate ByExit(rows: seq<Row>) { forall i, j :: 0 <= i < j < |rows| ==> NotLater(rows[i], rows[j]) }

  function Values(rows: seq<Row>): (v: seq<real>)
    ensures |v| == |rows|
  {
    Map(rows, (r: Row) => r.value)
  }

  /**
   An available packet describes the returns of exactly the given trades, in the order of their exits: wins, losses,
   expectancy and profit factor by sign, both drawdowns as worst falls over all pairs of instants.
   */
  lemma PacketMeaning(trades: seq<Trade>, field: ReturnField, f: real)
    requires Performance(trades, field, f).Available?
    ensures exists rows ::
              && multiset(rows) == multiset(Map(trades, Returned(field))) && ByExit(rows) && |rows| == |trades| > 0
              && Describes(Performance(trades, field, f), Values(rows), f)
    ensures var basis := Performance(trades, field, f).costBasis;
            if field.RealizedField? then basis == None
            else forall t :: t in trades ==> basis == Some(StatedBasis(t))
  {
    hide Summarise, Describes, Defect, Usable, RowOrder;
    AvailableExactly(trades, field, f);
    forall t ensures Defect(t, field).None? <==> Usable(t, field) { DefectMeans(t, field); }
    FilterAll(trades, Valid(field));
    var rows := Rows(trades, field);
    RowsMean(trades, field);
    RowOrderIsTotal();
    StableSortSorts(rows, RowOrder);
    var sorted := StableSort(rows, RowOrder);
    assert |multiset(sorted)| == |multiset(rows)|;
    forall i, j | 0 <= i < j < |sorted| ensures NotLater(sorted[i], sorted[j]) {
      RowOrderMeans(sorted[i], sorted[j]);
    }
    assert Map(sorted, ValueOf()) == Values(sorted);
    SummaryDescribes(Values(sorted), f, TheBasis(Bases(trades, field), field));
    BasisMeans(trades, field, f);
  }

  lemma RowsMean(trades: seq<Trade>, field: ReturnField)
    requires Filter(trades, Valid(field)) == trades
    ensures Rows(trades, field) == Map(trades, Returned(field))
  {}

  lemma RowOrderMeans(a: Row, b: Row)
    ensures RowOrder(a, b) <==> NotLater(a, b)
  {
    StringOrder();
    assert Comparable(StringLe, a.symbol, b.symbol);
  }

  lemma BasisMeans(trades: seq<Trade>, field: ReturnField, f: real)
    requires Performance(trades, field, f).Available?
    ensures var basis := Performance(trades, field, f).costBasis;
            if field.RealizedField? then basis == None
            else forall t :: t in trades ==> basis == Some(StatedBasis(t))
  {
    hide Reconciled, StatedBasis, BasisOf, Summarise;
    AvailableExactly(trades, field, f);
    BasisPublished(trades, field, f);
    if field.NetField? {
      forall t | t in trades ensures TheBasis(Bases(trades, field), field) == Some(StatedBasis(t)) {
        assert Usable(t, field);
        ExitIsNoCost(t);
        NotesMeans(t);
        assert BasisOf(t) in Bases(trades, field);
        forall b | b in Bases(trades, field) ensures b == StatedBasis(t) {
          var u :| u in trades && NotesBasis(u, field) && BasisOf(u) == b;
          NotesMeans(u);
        }
      }
    }
  }

  lemma BasisPublished(trades: seq<Trade>, field: ReturnField, f: real)
    requires Performance(trades, field, f).Available?
    ensures Performance(trades, field, f).costBasis == TheBasis(Bases(trades, field), field)
  {}

  // ---- Permutation invariance ----------------------------------------------

  lemma SameMembers<T>(s: seq<T>, t: seq<T>)
    requires multiset(s) == multiset(t)
    ensures forall x :: x in s <==> x in t
    ensures |s| == |t|
  {
    assert forall x :: x in s <==> x in multiset(s);
    assert forall x :: x in t <==> x in multiset(t);
    assert |multiset(s)| == |s| && |multiset(t)| == |t|;
  }

  /** The last element of `s` somewhere in its rearrangement `t`; the rest are rearrangements too. */
  lemma RemoveCommon<T>(s: seq<T>, t: seq<T>) returns (a: seq<T>, b: seq<T>)
    requires |s| > 0 && multiset(s) == multiset(t)
    ensures t == a + [s[|s| - 1]] + b
    ensures multiset(s[..|s| - 1]) == multiset(a + b)
  {
    SameMembers(s, t);
    var last := s[|s| - 1];
    assert last in t;
    var k :| 0 <= k < |t| && t[k] == last;
    a, b := t[..k], t[k + 1..];
    assert t == a + [last] + b;
    WithoutLast(s);
    MultisetAround(a, last, b);
  }

  lemma MultisetAround<T>(a: seq<T>, x: T, b: seq<T>)
    ensures multiset(a + [x] + b) == multiset(a + b) + multiset{x}
  {}

  lemma MapAround<A, B>(a: seq<A>, x: A, b: seq<A>, f: A -> B)
    ensures Map(a + b, f) == Map(a, f) + Map(b, f)
    ensures Map(a + [x] + b, f) == Map(a, f) + [f(x)] + Map(b, f)
  {}

  lemma FilterAround<T>(a: seq<T>, x: T, b: seq<T>, p: T -> bool)
    ensures Filter(a + b, p) == Filter(a, p) + Filter(b, p)
    ensures Filter(a + [x] + b, p) == (if p(x) then Filter(a, p) + [x] else Filter(a, p)) + Filter(b, p)
  {
    FilterConcat(a, b, p);
    FilterConcat(a + [x], b, p);
    FilterAppend(a, x, p);
  }

  lemma {:induction false} MapPermutation<A, B>(s: seq<A>, t: seq<A>, f: A -> B)
    requires multiset(s) == multiset(t)
    ensures multiset(Map(s, f)) == multiset(Map(t, f))
  {
    if |s| == 0 {
      SameMembers(s, t);
    } else {
      var a, b := RemoveCommon(s, t);
      var last := s[|s| - 1];
      MapPermutation(s[..|s| - 1], a + b, f);
      MapAround(a, last, b, f);
      MultisetAround(Map(a, f), f(last), Map(b, f));
      assert Map(s, f) == Map(s[..|s| - 1], f) + [f(last)];
    }
  }

  lemma {:induction false} FilterPermutation<T>(s: seq<T>, t: seq<T>, p: T -> bool)
    requires multiset(s) == multiset(t)
    ensures multiset(Filter(s, p)) == multiset(Filter(t, p))
  {
    if |s| == 0 {
      SameMembers(s, t);
    } else {
      var a, b := RemoveCommon(s, t);
      var last := s[|s| - 1];
      FilterPermutation(s[..|s| - 1], a + b, p);
      FilterAround(a, last, b, p);
      MultisetAround(Filter(a, p), last, Filter(b, p));
    }
  }

  /** Reordering the input never changes the packet, available or not. */
  lemma PacketIgnoresOrder(a: seq<Trade>, b: seq<Trade>, field: ReturnField, f: real)
    requires multiset(a) == multiset(b)
    ensures Performance(a, field, f) == Performance(b, field, f)
  {
    SameMembers(a, b);
    SameRows(a, b, field);
    SameMembers(Rows(a, field), Rows(b, field));
    SameVerdicts(a, b, field);
    RowOrderIsTotal();
    SortOfPermutation(Rows(a, field), Rows(b, field), RowOrder);
  }

  lemma SameRows(a: seq<Trade>, b: seq<Trade>, field: ReturnField)
    requires multiset(a) == multiset(b)
    ensures multiset(Rows(a, field)) == multiset(Rows(b, field))
  {
    FilterPermutation(a, b, Valid(field));
    MapPermutation(Filter(a, Valid(field)), Filter(b, Valid(field)), RowOf(field));
  }

  lemma SameVerdicts(a: seq<Trade>, b: seq<Trade>, field: ReturnField)
    requires multiset(a) == multiset(b)
    ensures Reasons(a, field) == Reasons(b, field) && Bases(a, field) == Bases(b, field)
  {
    SameMembers(a, b);
  }
}
