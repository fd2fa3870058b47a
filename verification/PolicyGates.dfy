// The two gates a selected action passes before it is commanded: the bounded
// projection of the hand channels and the final policy check.

module PolicyGates {
  import opened Results
  import opened Reals
  import opened Joints

  const ACTION_DIM: nat := 12
  const MAXIMUM_CORRECTION: real := 0.02
  const ROUNDING: real := 0.000000000001

  datatype GateError = MalformedAction | InvalidBounds | ExcessiveCorrection(channel: nat) | ArmOutside | HandOutside

  /** A hand channel the projection changed. */
  datatype Event = Event(channel: nat, raw: real, projected: real) {
    function Delta(): real {
      projected - raw
    }
  }

  datatype Projection = Projection(action: seq<real>, events: seq<Event>)

  function ProjectedAction(action: seq<real>, lo: real, hi: real): seq<real>
    requires |action| == ACTION_DIM
  {
    seq(ACTION_DIM, k requires 0 <= k < ACTION_DIM => if k < 6 then action[k] else Clamp(action[k], lo, hi))
  }

  /** The changed hand channels before k, in channel order. */
  function Events(raw: seq<real>, projected: seq<real>, k: nat := ACTION_DIM): seq<Event>
    requires |raw| == |projected| == ACTION_DIM && k <= ACTION_DIM
  {
    if k <= 6 then []
    else Events(raw, projected, k - 1)
         + if raw[k - 1] != projected[k - 1] then [Event(k - 1, raw[k - 1], projected[k - 1])] else []
  }

  /** The first hand channel from k on whose correction exceeds the allowance. */
  function FirstExcessive(raw: seq<real>, projected: seq<real>, allowance: real, k: nat := 6): Option<nat>
    requires |raw| == |projected| == ACTION_DIM && k <= ACTION_DIM
    decreases ACTION_DIM - k
  {
    if k == ACTION_DIM then None
    else if Abs(projected[k] - raw[k]) > allowance then Some(k)
    else FirstExcessive(raw, projected, allowance, k + 1)
  }

  function Project(action: seq<real>, legalMin: real, legalMax: real, maximum: real := MAXIMUM_CORRECTION)
    : Result<Projection, GateError>
  {
    if |action| != ACTION_DIM then Err(MalformedAction)
    else if legalMin >= legalMax || maximum < 0.0 then Err(InvalidBounds)
    else
      var projected := ProjectedAction(action, legalMin, legalMax);
      match FirstExcessive(action, projected, maximum + ROUNDING)
      case Some(k) => Err(ExcessiveCorrection(k))
      case None => Ok(Projection(projected, Events(action, projected)))
  }

  /** The final policy check; None when the action may be commanded. */
  function AssertPolicyAction(action: seq<real>): Option<GateError> {
    if |action| != ACTION_DIM then Some(MalformedAction)
    else if exists k | 0 <= k < 6 :: action[k] < LOWER[k] || action[k] > UPPER[k] then Some(ArmOutside)
    else if exists k | 6 <= k < 12 :: action[k] < 0.0 || action[k] > 1.0 then Some(HandOutside)
    else None
  }

  // ---- what the projection does --------------------------------------------

  lemma {:induction false} FirstExcessiveMeaning(raw: seq<real>, projected: seq<real>, allowance: real, k: nat := 6)
    requires |raw| == |projected| == ACTION_DIM && k <= ACTION_DIM
    ensures FirstExcessive(raw, projected, allowance, k).None?
       <==> forall i | k <= i < ACTION_DIM :: Abs(projected[i] - raw[i]) <= allowance
    ensures match FirstExcessive(raw, projected, allowance, k)
            case None => true
            case Some(i) =>
              && k <= i < ACTION_DIM && Abs(projected[i] - raw[i]) > allowance
              && (forall j | k <= j < i :: Abs(projected[j] - raw[j]) <= allowance)
    decreases ACTION_DIM - k
  {
    if k < ACTION_DIM {
      FirstExcessiveMeaning(raw, projected, allowance, k + 1);
    }
  }

  lemma {:induction false} EventsMeaning(raw: seq<real>, projected: seq<real>, k: nat)
    requires |raw| == |projected| == ACTION_DIM && k <= ACTION_DIM
    ensures forall e | e in Events(raw, projected, k) ::
      6 <= e.channel < k && e.raw == raw[e.channel] && e.projected == projected[e.channel] && e.raw != e.projected
    ensures forall i | 6 <= i < k && raw[i] != projected[i] :: Event(i, raw[i], projected[i]) in Events(raw, projected, k)
    ensures forall i, j | 0 <= i < j < |Events(raw, projected, k)| ::
      Events(raw, projected, k)[i].channel < Events(raw, projected, k)[j].channel
    decreases k
  {
    if k > 6 {
      EventsMeaning(raw, projected, k - 1);
    }
  }

  lemma {:induction false} NoChangeNoEvents(raw: seq<real>, k: nat)
    requires |raw| == ACTION_DIM && k <= ACTION_DIM
    ensures Events(raw, raw, k) == []
    decreases k
  {
    if k > 6 {
      NoChangeNoEvents(raw, k - 1);
    }
  }

  /** How far a hand value lies outside the legal interval. */
  function Outside(x: real, lo: real, hi: real): real {
    Max(0.0, Max(lo - x, x - hi))
  }

  function Distance(x: real, y: real): real {
    Abs(x - y)
  }

  /** No legal value is closer to x than p. */
  ghost predicate IsNearest(p: real, x: real, lo: real, hi: real) {
    lo <= p <= hi && forall y | lo <= y <= hi :: Distance(p, x) <= Distance(y, x)
  }

  lemma ClampIsNearest(x: real, lo: real, hi: real)
    requires lo <= hi
    ensures IsNearest(Clamp(x, lo, hi), x, lo, hi)
    ensures Distance(Clamp(x, lo, hi), x) == Outside(x, lo, hi)
    ensures Clamp(x, lo, hi) == x <==> lo <= x <= hi
  {
  }

  /** The projection leaves the arm alone and moves every hand value to the
      nearest legal one; it refuses exactly the values that are further outside
      than the tolerance. */
  lemma {:induction false} ProjectionIsNearest(action: seq<real>, lo: real, hi: real, maximum: real)
    requires |action| == ACTION_DIM && lo < hi && maximum >= 0.0
    ensures Project(action, lo, hi, maximum).Ok?
       <==> forall k | 6 <= k < ACTION_DIM :: Outside(action[k], lo, hi) <= maximum + ROUNDING
    ensures Project(action, lo, hi, maximum).Ok? ==>
              var p := Project(action, lo, hi, maximum).value.action;
              && |p| == ACTION_DIM && p[..6] == action[..6]
              && (forall k | 6 <= k < ACTION_DIM :: IsNearest(p[k], action[k], lo, hi))
  {
    var p := ProjectedAction(action, lo, hi);
    FirstExcessiveMeaning(action, p, maximum + ROUNDING);
    forall k | 6 <= k < ACTION_DIM
      ensures Abs(p[k] - action[k]) == Outside(action[k], lo, hi) && IsNearest(p[k], action[k], lo, hi)
    {
      ClampIsNearest(action[k], lo, hi);
    }
  }

  /** Exactly the hand channels outside the legal interval are reported. */
  lemma EventsAreTheViolations(action: seq<real>, lo: real, hi: real, maximum: real)
    requires Project(action, lo, hi, maximum).Ok?
    ensures var p := Project(action, lo, hi, maximum).value;
            && (forall k | 6 <= k < ACTION_DIM ::
                  (exists e | e in p.events :: e.channel == k) <==> !(lo <= action[k] <= hi))
            && (forall e | e in p.events :: Abs(e.Delta()) == Outside(e.raw, lo, hi) > 0.0)
  {
    var p := ProjectedAction(action, lo, hi);
    EventsMeaning(action, p, ACTION_DIM);
    forall k | 6 <= k < ACTION_DIM
      ensures p[k] == action[k] <==> lo <= action[k] <= hi
      ensures Abs(p[k] - action[k]) == Outside(action[k], lo, hi)
      ensures p[k] != action[k] ==> Event(k, action[k], p[k]) in Events(action, p)
    {
      ClampIsNearest(action[k], lo, hi);
    }
  }

  /** Projecting twice is projecting once, and the second time changes nothing. */
  lemma ProjectionIsIdempotent(action: seq<real>, lo: real, hi: real, maximum: real)
    requires Project(action, lo, hi, maximum).Ok?
    ensures var once := Project(action, lo, hi, maximum).value.action;
            Project(once, lo, hi, maximum) == Ok(Projection(once, []))
  {
    var once := Project(action, lo, hi, maximum).value.action;
    ProjectionIsNearest(action, lo, hi, maximum);
    assert ProjectedAction(once, lo, hi) == once by {
      forall k | 0 <= k < ACTION_DIM
        ensures ProjectedAction(once, lo, hi)[k] == once[k]
      {
      }
    }
    FirstExcessiveMeaning(once, once, maximum + ROUNDING);
    NoChangeNoEvents(once, ACTION_DIM);
  }

  /** The final check alone: the arm envelope first, then the hand interval. */
  lemma AssertedExactly(action: seq<real>)
    requires |action| == ACTION_DIM
    ensures AssertPolicyAction(action) == None
       <==> InLimits(action[..6]) && forall k | 6 <= k < ACTION_DIM :: 0.0 <= action[k] <= 1.0
    ensures AssertPolicyAction(action) == Some(ArmOutside) <==> !InLimits(action[..6])
  {
    assert forall k | 0 <= k < 6 :: action[k] == action[..6][k];
  }

  /** A refused action names its first hand value beyond the tolerance. */
  lemma RefusalNamesFirst(action: seq<real>, lo: real, hi: real, maximum: real, channel: nat)
    requires |action| == ACTION_DIM && lo < hi && maximum >= 0.0
    ensures Project(action, lo, hi, maximum) == Err(ExcessiveCorrection(channel))
       <==> && 6 <= channel < ACTION_DIM && Outside(action[channel], lo, hi) > maximum + ROUNDING
            && forall k | 6 <= k < channel :: Outside(action[k], lo, hi) <= maximum + ROUNDING
  {
    var p := ProjectedAction(action, lo, hi);
    FirstExcessiveMeaning(action, p, maximum + ROUNDING);
    forall k | 6 <= k < ACTION_DIM
      ensures Abs(p[k] - action[k]) == Outside(action[k], lo, hi)
    {
      ClampIsNearest(action[k], lo, hi);
    }
  }

  /** Both gates in the rollout's order. */
  predicate Passes(action: seq<real>, lo: real, hi: real) {
    Project(action, lo, hi).Ok? && AssertPolicyAction(Project(action, lo, hi).value.action) == None
  }

  /** With a legal interval inside [0, 1], an action passes both gates exactly
      when its arm is inside the manufacturer envelope and no hand value is
      further outside the legal interval than the tolerance. */
  lemma PassesExactly(action: seq<real>, lo: real, hi: real)
    requires 0.0 <= lo < hi <= 1.0
    ensures Passes(action, lo, hi)
       <==> && |action| == ACTION_DIM && InLimits(action[..6])
            && forall k | 6 <= k < ACTION_DIM :: Outside(action[k], lo, hi) <= MAXIMUM_CORRECTION + ROUNDING
  {
    if |action| == ACTION_DIM {
      ProjectionIsNearest(action, lo, hi, MAXIMUM_CORRECTION);
      if Project(action, lo, hi).Ok? {
        var p := Project(action, lo, hi).value.action;
        assert forall k | 0 <= k < 6 :: p[k] == p[..6][k] == action[..6][k];
        assert InLimits(action[..6]) <==> forall k | 0 <= k < 6 :: LOWER[k] <= p[k] <= UPPER[k];
      }
    }
  }
}

module PolicyHull {
  import opened Joints
  import opened PolicyGates
  import opened EnsemblerSpec
  import opened EnsemblerRuns
  import opened SelectionRuns
  import opened EnsemblerSession
  import opened NaiveEnsembler

  /** The box of the arm limits and the tolerated hand interval. */
  function Lowest(legalMin: real): seq<real> {
    LOWER + seq(6, _ => legalMin - MAXIMUM_CORRECTION)
  }

  function Highest(legalMax: real): seq<real> {
    UPPER + seq(6, _ => legalMax + MAXIMUM_CORRECTION)
  }

  lemma BoxedActionPasses(action: seq<real>, lo: real, hi: real)
    requires 0.0 <= lo < hi <= 1.0 && RowWithin(action, Lowest(lo), Highest(hi))
    ensures Passes(action, lo, hi)
  {
    forall k | 0 <= k < 6
      ensures LOWER[k] <= action[..6][k] <= UPPER[k]
    {
      assert Lowest(lo)[k] <= action[k] <= Highest(hi)[k];
    }
    forall k | 6 <= k < ACTION_DIM
      ensures Outside(action[k], lo, hi) <= MAXIMUM_CORRECTION + ROUNDING
    {
      assert Lowest(lo)[k] <= action[k] <= Highest(hi)[k];
    }
    PassesExactly(action, lo, hi);
  }

  /** Every action of a trace that has one passes both gates. */
  ghost predicate AllPass(trace: Trace, lo: real, hi: real) {
    forall i | 0 <= i < |trace| && trace[i].Some? && trace[i].value.action.Some? ::
      Passes(trace[i].value.action.value, lo, hi)
  }

  lemma BoxedTracePasses(trace: Trace, lo: real, hi: real)
    requires 0.0 <= lo < hi <= 1.0 && Boxed(trace, Lowest(lo), Highest(hi))
    ensures AllPass(trace, lo, hi)
  {
    hide RowWithin, Passes;
    forall i | 0 <= i < |trace| && trace[i].Some? && trace[i].value.action.Some?
      ensures Passes(trace[i].value.action.value, lo, hi)
    {
      assert ActionWithin(trace[i].value.action, Lowest(lo), Highest(hi));
      BoxedActionPasses(trace[i].value.action.value, lo, hi);
    }
  }

  /** If every predicted action lies in the box, then whatever any run of the
      ensembler selects or repeats passes both gates. */
  method RunPolicy(c: Config, ops: seq<Op>, lo: real, hi: real) returns (trace: Trace)
    requires ValidConfig(c) && c.actionDim == ACTION_DIM && 0.0 <= lo < hi <= 1.0
    requires Increasing(ops) && HistoryWithin(NaiveRun(c, ops).0.history, Lowest(lo), Highest(hi))
    ensures trace == Fold(c, ops).1
    ensures AllPass(trace, lo, hi)
  {
    hide Fold, NaiveRun, Increasing, HistoryWithin, Boxed, AllPass, Leakless, Conserved, Valid;
    var e;
    trace, e := RunEnsembler(c, ops, Lowest(lo), Highest(hi));
    BoxedTracePasses(trace, lo, hi);
  }
}
