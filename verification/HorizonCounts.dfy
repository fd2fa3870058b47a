// The closed-form coverage counts of the horizon analysis, against enumeration.

module HorizonCounts {
  import opened Naturals
  import opened Results

  datatype Failure = LengthMismatch | DivisionByZero

  datatype Counts = Counts(
    future: int, futureFraction: real, afterFirstTwo: int,
    paddedRows: int, paddedActions: int, paddedFraction: real)

  function MinInt(x: int, y: int): int {
    if x <= y then x else y
  }

  function MaxInt(x: int, y: int): int {
    if x >= y then x else y
  }

  // ---- enumeration ---------------------------------------------------------

  /** How many of the first n query rows see the event in their chunk, at least
      `lead` actions after its start. */
  function Sees(n: nat, event: int, horizon: int, lead: int): nat {
    if n == 0 then 0
    else Sees(n - 1, event, horizon, lead) + if lead <= event - (n - 1) <= horizon - 1 then 1 else 0
  }

  /** Padded slots of the chunks queried at the first n rows of an episode. */
  function PaddedSlots(n: nat, length: nat, horizon: int): int
    requires n <= length
  {
    if n == 0 then 0 else PaddedSlots(n - 1, length, horizon) + (horizon - MinInt(horizon, length - (n - 1)))
  }

  function PaddedRows(n: nat, length: nat, horizon: int): int
    requires n <= length
  {
    if n == 0 then 0 else PaddedRows(n - 1, length, horizon) + if MinInt(horizon, length - (n - 1)) < horizon then 1 else 0
  }

  // ---- closed forms --------------------------------------------------------

  /** Queries that see the event after their first action. */
  function Future(event: int, horizon: int): int {
    MinInt(horizon - 1, event)
  }

  /** Queries that see the event after their first two actions. */
  function AfterFirstTwo(event: int, horizon: int): int {
    MinInt(MaxInt(horizon - 2, 0), MaxInt(event - 1, 0))
  }

  lemma {:induction false} SeesClosed(n: nat, event: int, horizon: int, lead: int)
    requires lead >= 1 && horizon >= 1 && event >= 0
    ensures Sees(n, event, horizon, lead)
         == MaxInt(0, MinInt(n, event - lead + 1) - MaxInt(0, event - horizon + 1))
    decreases n
  {
    if n > 0 {
      SeesClosed(n - 1, event, horizon, lead);
    }
  }

  /** The first formula counts the query rows exactly when the event does not
      lie beyond the end of the episode (or chunks have a single action). */
  lemma FutureIsEnumerated(length: nat, event: nat, horizon: nat)
    requires horizon >= 1
    ensures Sees(length, event, horizon, 1) == Future(event, horizon) <==> event <= length || horizon == 1
  {
    SeesClosed(length, event, horizon, 1);
  }

  /** The second formula, likewise one row further. */
  lemma AfterFirstTwoIsEnumerated(length: nat, event: nat, horizon: nat)
    requires horizon >= 1
    ensures Sees(length, event, horizon, 2) == AfterFirstTwo(event, horizon) <==> event <= length + 1 || horizon <= 2
  {
    SeesClosed(length, event, horizon, 2);
  }

  /** Rows close enough to the end of the episode to need padding. */
  function Short(length: nat, horizon: nat): nat {
    if horizon == 0 then 0 else MinInt(length, horizon - 1)
  }

  lemma {:induction false} PaddedRowsClosed(n: nat, length: nat, horizon: nat)
    requires n <= length && horizon >= 1
    ensures PaddedRows(n, length, horizon) == MaxInt(0, n - MaxInt(0, length - horizon + 1))
    decreases n
  {
    if n > 0 {
      PaddedRowsClosed(n - 1, length, horizon);
    }
  }

  /** k rows from the first padded one on. */
  lemma {:induction false} PaddedSlotsFrom(n: nat, length: nat, horizon: nat)
    requires n <= length && horizon >= 1
    ensures var skipped := MaxInt(0, length - horizon + 1);
            var first := horizon - (length - skipped);
            2 * PaddedSlots(n, length, horizon)
              == if n <= skipped then 0 else (n - skipped) * (2 * first + (n - skipped) - 1)
    decreases n
  {
    var skipped := MaxInt(0, length - horizon + 1);
    var first := horizon - (length - skipped);
    if n > 0 {
      PaddedSlotsFrom(n - 1, length, horizon);
      if n > skipped {
        Arithmetic(n - skipped, first);
      }
    }
  }

  lemma Arithmetic(k: int, first: int)
    ensures (k - 1) * (2 * first + (k - 1) - 1) + 2 * (first + k - 1) == k * (2 * first + k - 1)
  {
  }

  /** The padding totals: m short rows with m H - m (m + 1) / 2 padded slots. */
  lemma PaddingIsClosed(length: nat, horizon: nat)
    requires horizon >= 1
    ensures PaddedRows(length, length, horizon) == Short(length, horizon)
    ensures PaddedSlots(length, length, horizon) == Short(length, horizon) * horizon - Triangle(Short(length, horizon))
  {
    PaddedRowsClosed(length, length, horizon);
    PaddedSlotsFrom(length, length, horizon);
    var m := Short(length, horizon);
    TriangleIsHalf(m);
    var first := horizon - m;
    assert 2 * PaddedSlots(length, length, horizon) == m * (2 * first + m - 1);
    Regroup(m, horizon);
  }

  lemma Regroup(m: int, h: int)
    ensures m * (2 * (h - m) + m - 1) == 2 * (m * h) - m * (m + 1)
  {
  }

  // ---- the analysis --------------------------------------------------------

  function TotalRows(lengths: seq<nat>, n: nat): nat
    requires n <= |lengths|
  {
    if n == 0 then 0 else TotalRows(lengths, n - 1) + lengths[n - 1]
  }

  function TotalFuture(events: seq<Option<nat>>, horizon: int, n: nat): int
    requires n <= |events|
  {
    if n == 0 then 0
    else TotalFuture(events, horizon, n - 1) + if events[n - 1].Some? then Future(events[n - 1].value, horizon) else 0
  }

  function TotalAfterFirstTwo(events: seq<Option<nat>>, horizon: int, n: nat): int
    requires n <= |events|
  {
    if n == 0 then 0
    else TotalAfterFirstTwo(events, horizon, n - 1)
         + if events[n - 1].Some? then AfterFirstTwo(events[n - 1].value, horizon) else 0
  }

  /** Padded rows and slots of the first n episodes, in closed form. */
  function TotalShort(lengths: seq<nat>, horizon: nat, n: nat): int
    requires n <= |lengths|
  {
    if n == 0 then 0 else TotalShort(lengths, horizon, n - 1) + Short(lengths[n - 1], horizon)
  }

  function TotalSlots(lengths: seq<nat>, horizon: nat, n: nat): int
    requires n <= |lengths|
  {
    if n == 0 then 0
    else TotalSlots(lengths, horizon, n - 1)
         + Short(lengths[n - 1], horizon) * horizon - Triangle(Short(lengths[n - 1], horizon))
  }

  ghost predicate IsShare(share: real, part: int, whole: nat) {
    share * whole as real == part as real
  }

  /** The analysis with its row-by-row padding loop. */
  method Count(lengths: seq<nat>, events: seq<Option<nat>>, horizon: nat) returns (r: Result<Counts, Failure>)
    ensures r == Err(LengthMismatch) <==> |lengths| != |events|
    ensures r == Err(DivisionByZero) <==> |lengths| == |events| && (TotalRows(lengths, |lengths|) == 0 || horizon == 0)
    ensures r.Ok? ==>
              && r.value.future == TotalFuture(events, horizon, |events|)
              && r.value.afterFirstTwo == TotalAfterFirstTwo(events, horizon, |events|)
              && r.value.paddedRows == TotalShort(lengths, horizon, |lengths|)
              && r.value.paddedActions == TotalSlots(lengths, horizon, |lengths|)
              && IsShare(r.value.futureFraction, r.value.future, TotalRows(lengths, |lengths|))
              && IsShare(r.value.paddedFraction, r.value.paddedActions, TotalRows(lengths, |lengths|) * horizon)
  {
    hide Share, IsShare, PaddedSlots, PaddedRows, Short, Triangle;
    var totalRows := 0;
    for i := 0 to |lengths|
      invariant totalRows == TotalRows(lengths, i)
    {
      totalRows := totalRows + lengths[i];
    }
    if |lengths| != |events| {
      return Err(LengthMismatch);
    }
    var future, afterFirstTwo, paddedActions, paddedRows := 0, 0, 0, 0;
    for i := 0 to |lengths|
      invariant future == TotalFuture(events, horizon, i)
      invariant afterFirstTwo == TotalAfterFirstTwo(events, horizon, i)
      invariant horizon >= 1 ==> paddedRows == TotalShort(lengths, horizon, i)
      invariant horizon >= 1 ==> paddedActions == TotalSlots(lengths, horizon, i)
    {
      if events[i].Some? {
        var event: int := events[i].value;
        future := future + MinInt(horizon - 1, event);
        afterFirstTwo := afterFirstTwo + MinInt(MaxInt(horizon - 2, 0), MaxInt(event - 1, 0));
      }
      var actions, rows := PadEpisode(lengths[i], horizon);
      if horizon >= 1 {
        PaddingIsClosed(lengths[i], horizon);
      }
      paddedActions, paddedRows := paddedActions + actions, paddedRows + rows;
    }
    if totalRows == 0 || horizon == 0 {
      return Err(DivisionByZero);
    }
    ProductNonZero(totalRows, horizon);
    var slots := totalRows * horizon;
    return Ok(Counts(future, Share(future, totalRows), afterFirstTwo, paddedRows, paddedActions, Share(paddedActions, slots)));
  }

  /** part / whole. */
  function Share(part: int, whole: nat): (share: real)
    requires whole > 0
    ensures IsShare(share, part, whole)
  {
    part as real / whole as real
  }

  method PadEpisode(length: nat, horizon: nat) returns (actions: int, rows: int)
    ensures actions == PaddedSlots(length, length, horizon) && rows == PaddedRows(length, length, horizon)
  {
    actions, rows := 0, 0;
    for index := 0 to length
      invariant actions == PaddedSlots(index, length, horizon) && rows == PaddedRows(index, length, horizon)
    {
      var valid := MinInt(horizon, length - index);
      actions := actions + (horizon - valid);
      rows := rows + if valid < horizon then 1 else 0;
    }
  }

  lemma ProductNonZero(x: nat, y: nat)
    requires x > 0 && y > 0
    ensures x * y > 0
  {
  }
}
