/** The calculator's engine: validate the ladder, place the typed
    probabilities on it, and propagate a unit distribution through n upgrade
    attempts. */
module Engine {
  import opened Errors
  import opened Percentage
  import opened Distribution

  // ---------------------------------------------------------- validation

  /** The first of the three input checks that fails, in the order they are
      made: level count, then start level, then number of attempts. */
  function ValidationError(levelCount: int, startLevel: int, steps: int): (e: Option<Error>)
    ensures e.None? <==> 2 <= levelCount && 1 <= startLevel <= levelCount && 0 <= steps
    ensures e == Some(InvalidLevelCount) <==> levelCount < 2
    ensures e == Some(InvalidStartLevel(levelCount)) <==>
      2 <= levelCount && (startLevel < 1 || startLevel > levelCount)
    ensures e == Some(InvalidStepCount) <==>
      2 <= levelCount && 1 <= startLevel <= levelCount && steps < 0
  {
    if levelCount < 2 then Some(InvalidLevelCount)
    else if startLevel < 1 || startLevel > levelCount then Some(InvalidStartLevel(levelCount))
    else if steps < 0 then Some(InvalidStepCount)
    else None
  }

  // ------------------------------------------------------------ placement

  /** Every token read by read, in order. */
  function ReadAll(read: string -> Result<real>, tokens: seq<string>): (r: seq<Result<real>>)
    ensures |r| == |tokens|
  {
    seq(|tokens|, i requires 0 <= i < |tokens| => read(tokens[i]))
  }

  /** What parse_percentage makes of each token, in order. */
  function Readings(tokens: seq<string>): (r: seq<Result<real>>)
    ensures |r| == |tokens|
  {
    ReadAll(ParsePercentage, tokens)
  }

  /** A reading accepted as the probability of the transition out of 0-based
      index probIndex: an unreadable token keeps its parse error, a number
      outside [0, 1] names the transition probIndex+1 -> probIndex+2. */
  function Accept(reading: Result<real>, probIndex: int): Result<real>
  {
    match reading
    case Err(e) => Err(e)
    case Ok(v) => if 0.0 <= v <= 1.0 then Ok(v) else Err(InvalidProbability(probIndex + 1, probIndex + 2))
  }

  /** Index of the first reading refused when reading i is checked for the
      transition out of index first + i; |readings| when none is. */
  function FirstRefused(readings: seq<Result<real>>, first: int): (k: nat)
    ensures k <= |readings|
    ensures forall j :: 0 <= j < k ==> Accept(readings[j], first + j).Ok?
    ensures k < |readings| ==> Accept(readings[k], first + k).Err?
  {
    if readings == [] || Accept(readings[0], first).Err? then 0
    else
      var rest := readings[1..];
      var k := FirstRefused(rest, first + 1);
      assert forall j :: 1 <= j < 1 + k ==> readings[j] == rest[j - 1];
      assert k < |rest| ==> readings[1 + k] == rest[k];
      1 + k
  }

  /** The first refusal is the only index with every earlier reading
      accepted and its own refused. */
  lemma FirstRefusedIs(readings: seq<Result<real>>, first: int, k: nat)
    requires k <= |readings|
    requires forall j :: 0 <= j < k ==> Accept(readings[j], first + j).Ok?
    requires k < |readings| ==> Accept(readings[k], first + k).Err?
    ensures FirstRefused(readings, first) == k
  {
  }

  /** The ladder of levelCount - 1 transition probabilities holding vs from
      index base upward and 0 everywhere else. */
  function Place(levelCount: int, base: int, vs: seq<real>): (u: seq<real>)
    requires 2 <= levelCount && 0 <= base && base + |vs| <= levelCount - 1
    ensures |u| == levelCount - 1
    ensures forall i :: 0 <= i < |vs| ==> u[base + i] == vs[i]
    ensures forall k :: 0 <= k < levelCount - 1 && !(base <= k < base + |vs|) ==> u[k] == 0.0
  {
    seq(levelCount - 1, k requires 0 <= k < levelCount - 1 =>
      if base <= k < base + |vs| then vs[k - base] else 0.0)
  }

  /** upgrade_probabilities: reading i is the probability of the transition
      out of index startLevel - 1 + i, as long as that index is below the
      top; readings past the top are never checked, every other slot is 0,
      and the first refusal below the top is the error (PlacementOutcome). */
  function UpgradeProbabilities(levelCount: int, startLevel: int, readings: seq<Result<real>>): (r: Result<seq<real>>)
    requires 2 <= levelCount && 1 <= startLevel <= levelCount
    ensures r.Ok? ==> |r.value| == levelCount - 1 && AreProbabilities(r.value)
    ensures r.Ok? ==> EmptyBelow(r.value, startLevel - 1)
    ensures r.Ok? ==> forall i :: 0 <= i < |readings| && startLevel - 1 + i < levelCount - 1 ==>
      Accept(readings[i], startLevel - 1 + i) == Ok(r.value[startLevel - 1 + i])
    ensures r.Ok? ==> forall k :: startLevel - 1 + |readings| <= k < levelCount - 1 ==> r.value[k] == 0.0
  {
    var base := startLevel - 1;
    var m := Min(|readings|, levelCount - startLevel);
    var k := FirstRefused(readings, base);
    if k < m then
      Err(Accept(readings[k], base + k).error)
    else
      var vs := seq(m, i requires 0 <= i < m => Accept(readings[i], base + i).value);
      PlacedReadings(levelCount, base, readings, m, vs);
      Ok(Place(levelCount, base, vs))
  }

  lemma PlacedReadings(levelCount: int, base: int, readings: seq<Result<real>>, m: int, vs: seq<real>)
    requires 2 <= levelCount && 0 <= base && 0 <= m <= |readings| && base + m <= levelCount - 1
    requires |vs| == m && forall i :: 0 <= i < m ==> Accept(readings[i], base + i) == Ok(vs[i])
    ensures AreProbabilities(Place(levelCount, base, vs))
  {
    var u := Place(levelCount, base, vs);
    forall k | 0 <= k < levelCount - 1
      ensures 0.0 <= u[k] <= 1.0
    {
      if base <= k < base + m {
        assert Accept(readings[k - base], base + (k - base)) == Ok(vs[k - base]);
      }
    }
  }

  /** Placement succeeds exactly when no reading below the top is refused,
      and otherwise fails with the first refusal's error. */
  lemma PlacementOutcome(levelCount: int, startLevel: int, readings: seq<Result<real>>)
    requires 2 <= levelCount && 1 <= startLevel <= levelCount
    ensures var r := UpgradeProbabilities(levelCount, startLevel, readings);
      r.Ok? <==> FirstRefused(readings, startLevel - 1) >= Min(|readings|, levelCount - startLevel)
    ensures var r := UpgradeProbabilities(levelCount, startLevel, readings);
      var k := FirstRefused(readings, startLevel - 1);
      r.Err? ==> (k < |readings| && startLevel - 1 + k < levelCount - 1 &&
                  Accept(readings[k], startLevel - 1 + k) == Err(r.error))
  {
  }

  /** Readings that agree on every transition below the top are placed
      alike, whatever follows them. */
  lemma PlacementIgnoresTail(levelCount: int, startLevel: int, a: seq<Result<real>>, b: seq<Result<real>>)
    requires 2 <= levelCount && 1 <= startLevel <= levelCount
    requires |a| >= levelCount - startLevel && |b| >= levelCount - startLevel
    requires forall j :: 0 <= j < levelCount - startLevel ==> a[j] == b[j]
    ensures UpgradeProbabilities(levelCount, startLevel, a) == UpgradeProbabilities(levelCount, startLevel, b)
  {
    var base, m := startLevel - 1, levelCount - startLevel;
    var fa := FirstRefused(a, base);
    PlacementOutcome(levelCount, startLevel, a);
    if fa < m {
      var e := Accept(a[fa], base + fa).error;
      RefusalIsFirst(levelCount, startLevel, a, fa, e);
      RefusalIsFirst(levelCount, startLevel, b, fa, e);
    } else {
      AcceptedAll(levelCount, startLevel, b, UpgradeProbabilities(levelCount, startLevel, a).value);
    }
  }

  // --------------------------------------------------------- the engine

  /** calculate_probabilities: the distribution after n upgrade attempts,
      or the first error met. */
  function Calculate(levelCount: int, startLevel: int, steps: int, tokens: seq<string>): Result<seq<real>>
  {
    match ValidationError(levelCount, startLevel, steps)
    case Some(e) => Err(e)
    case None =>
      match UpgradeProbabilities(levelCount, startLevel, Readings(tokens))
      case Err(e) => Err(e)
      case Ok(u) => Ok(Run(Unit(levelCount, startLevel - 1), u, steps))
  }

  /** The loop that fills upgrade_probabilities, with the reader of a
      token as a parameter (CalculateProbabilities passes ParsePercentage):
      a token is read only when its transition lies below the top, and the
      first refusal ends the loop. */
  method FillUpgradeProbabilities(levelCount: int, startLevel: int, tokens: seq<string>, read: string -> Result<real>)
    returns (r: Result<seq<real>>)
    requires 2 <= levelCount && 1 <= startLevel <= levelCount
    ensures r == UpgradeProbabilities(levelCount, startLevel, ReadAll(read, tokens))
  {
    ghost var readings := ReadAll(read, tokens);
    var upgrade := new real[levelCount - 1](_ => 0.0);
    var base := startLevel - 1;
    for i := 0 to |tokens|
      invariant forall j :: 0 <= j < i && base + j < levelCount - 1 ==>
        Accept(readings[j], base + j) == Ok(upgrade[base + j])
      invariant forall k :: 0 <= k < levelCount - 1 && !(base <= k < base + i) ==> upgrade[k] == 0.0
    {
      var probIndex := base + i;
      if probIndex < levelCount - 1 {
        var parsed := read(tokens[i]);
        if parsed.Err? || !(0.0 <= parsed.value <= 1.0) {
          var e := if parsed.Err? then parsed.error else InvalidProbability(probIndex + 1, probIndex + 2);
          RefusalIsFirst(levelCount, startLevel, readings, i, e);
          return Err(e);
        }
        upgrade[probIndex] := parsed.value;
      }
    }
    r := Ok(upgrade[..]);
    AcceptedAll(levelCount, startLevel, readings, upgrade[..]);
  }

  /** When every reading before i was accepted and reading i is refused, the
      placement fails with reading i's error. */
  lemma RefusalIsFirst(levelCount: int, startLevel: int, readings: seq<Result<real>>, i: int, e: Error)
    requires 2 <= levelCount && 1 <= startLevel <= levelCount
    requires 0 <= i < |readings| && startLevel - 1 + i < levelCount - 1
    requires forall j :: 0 <= j < i ==> Accept(readings[j], startLevel - 1 + j).Ok?
    requires Accept(readings[i], startLevel - 1 + i) == Err(e)
    ensures UpgradeProbabilities(levelCount, startLevel, readings) == Err(e)
  {
    FirstRefusedIs(readings, startLevel - 1, i);
    PlacementOutcome(levelCount, startLevel, readings);
  }

  /** When every reading that reaches the ladder was accepted into upgrade,
      the placement succeeds with exactly upgrade. */
  lemma AcceptedAll(levelCount: int, startLevel: int, readings: seq<Result<real>>, upgrade: seq<real>)
    requires 2 <= levelCount && 1 <= startLevel <= levelCount && |upgrade| == levelCount - 1
    requires forall j :: 0 <= j < |readings| && startLevel - 1 + j < levelCount - 1 ==>
      Accept(readings[j], startLevel - 1 + j) == Ok(upgrade[startLevel - 1 + j])
    requires forall k :: 0 <= k < levelCount - 1 && !(startLevel - 1 <= k < startLevel - 1 + |readings|) ==>
      upgrade[k] == 0.0
    ensures UpgradeProbabilities(levelCount, startLevel, readings) == Ok(upgrade)
  {
    var base, m := startLevel - 1, Min(|readings|, levelCount - startLevel);
    assert FirstRefused(readings, base) >= m;
    var vs := seq(m, i requires 0 <= i < m => Accept(readings[i], base + i).value);
    forall i | 0 <= i < m
      ensures upgrade[base + i] == vs[i]
    {
      assert Accept(readings[i], base + i) == Ok(upgrade[base + i]);
    }
    PlaceMatches(levelCount, base, vs, upgrade);
  }

  /** A ladder that holds vs from index base upward and 0 elsewhere is
      Place of vs. */
  lemma PlaceMatches(levelCount: int, base: int, vs: seq<real>, upgrade: seq<real>)
    requires 2 <= levelCount && 0 <= base && base + |vs| <= levelCount - 1 && |upgrade| == levelCount - 1
    requires forall i :: 0 <= i < |vs| ==> upgrade[base + i] == vs[i]
    requires forall k :: 0 <= k < levelCount - 1 && !(base <= k < base + |vs|) ==> upgrade[k] == 0.0
    ensures Place(levelCount, base, vs) == upgrade
  {
    var u := Place(levelCount, base, vs);
    forall k | 0 <= k < levelCount - 1
      ensures u[k] == upgrade[k]
    {
      if base <= k < base + |vs| {
        assert upgrade[base + (k - base)] == vs[k - base];
      }
    }
  }

  /** One upgrade attempt, as the inner loop runs it: a fresh vector in
      which every level first keeps the share of its mass that does not
      move up, and the share that moves up is added to the level above. */
  method Attempt(p: array<real>, u: seq<real>) returns (next: array<real>)
    requires p.Length == |u| + 1
    ensures fresh(next) && next[..] == Step(p[..], u)
  {
    ghost var before := p[..];
    var n := p.Length;
    next := new real[n](_ => 0.0);
    for i := 0 to n
      invariant forall k :: 0 <= k < i ==> next[k] == Step(before, u)[k]
      invariant i < n ==> next[i] == In(before, u, i)
      invariant forall k :: i < k < n ==> next[k] == 0.0
    {
      StepAt(before, u, i);
      if i < n - 1 && u[i] > 0.0 {
        next[i] := next[i] + p[i] * (1.0 - u[i]);
        next[i + 1] := next[i + 1] + p[i] * u[i];
      } else {
        next[i] := next[i] + p[i];
      }
    }
    assert next[..] == Step(before, u);
  }

  /** Level i after a step holds what arrived from below plus what it kept,
      and what arrives at level i + 1 is the share level i moved up. */
  lemma StepAt(p: seq<real>, u: seq<real>, i: int)
    requires Fits(p, u) && 0 <= i < |p|
    ensures Step(p, u)[i] == In(p, u, i) + (if i < |u| && u[i] > 0.0 then p[i] * (1.0 - u[i]) else p[i])
    ensures i + 1 < |p| ==> In(p, u, i + 1) == (if u[i] > 0.0 then p[i] * u[i] else 0.0)
  {
    if i < |u| && u[i] > 0.0 {
      assert p[i] - p[i] * u[i] == p[i] * (1.0 - u[i]);
    }
  }

  /** The propagation loop: the unit vector at the start level, then n
      attempts. */
  method Propagate(levelCount: int, startLevel: int, steps: int, u: seq<real>) returns (dist: seq<real>)
    requires 2 <= levelCount && 1 <= startLevel <= levelCount && 0 <= steps && |u| == levelCount - 1
    ensures dist == Run(Unit(levelCount, startLevel - 1), u, steps)
  {
    var p := new real[levelCount](_ => 0.0);
    p[startLevel - 1] := 1.0;
    assert p[..] == Unit(levelCount, startLevel - 1);
    for step := 0 to steps
      invariant p.Length == levelCount
      invariant p[..] == Run(Unit(levelCount, startLevel - 1), u, step)
    {
      p := Attempt(p, u);
    }
    dist := p[..];
  }

  /** calculate_probabilities, as the program runs it: validation, the fill
      loop, then the propagation loops. */
  method CalculateProbabilities(levelCount: int, startLevel: int, steps: int, tokens: seq<string>)
    returns (r: Result<seq<real>>)
    ensures r == Calculate(levelCount, startLevel, steps, tokens)
  {
    if levelCount < 2 {
      return Err(InvalidLevelCount);
    }
    if startLevel < 1 || startLevel > levelCount {
      return Err(InvalidStartLevel(levelCount));
    }
    if steps < 0 {
      return Err(InvalidStepCount);
    }
    var upgrade := FillUpgradeProbabilities(levelCount, startLevel, tokens, ParsePercentage);
    if upgrade.Err? {
      return Err(upgrade.error);
    }
    var dist := Propagate(levelCount, startLevel, steps, upgrade.value);
    return Ok(dist);
  }

  // ------------------------------------------------------ the input form

  /** The index filter of update_level_inputs: after the same two checks on
      the ladder, a field is shown for transition i (0-based) exactly when
      level i + 1 is not below the start level. */
  method PromptedIndices(levelCount: int, startLevel: int) returns (r: Result<seq<int>>)
    ensures r.Err? <==> ValidationError(levelCount, startLevel, 0).Some?
    ensures r.Err? ==> r.error == ValidationError(levelCount, startLevel, 0).value
    ensures r.Ok? ==> |r.value| == levelCount - startLevel
    ensures r.Ok? ==> forall j :: 0 <= j < |r.value| ==> r.value[j] == startLevel - 1 + j
  {
    if levelCount < 2 {
      return Err(InvalidLevelCount);
    }
    if startLevel < 1 || startLevel > levelCount {
      return Err(InvalidStartLevel(levelCount));
    }
    var shown: seq<int> := [];
    for i := 0 to levelCount - 1
      invariant |shown| == if i < startLevel - 1 then 0 else i - (startLevel - 1)
      invariant forall j :: 0 <= j < |shown| ==> shown[j] == startLevel - 1 + j
    {
      if i + 1 < startLevel {
        continue;
      }
      shown := shown + [i];
    }
    return Ok(shown);
  }

  // ------------------------------------------------------------ properties

  /** Every refusal of the ladder itself comes before any token is read and
      before any step is taken. */
  lemma ValidationFirst(levelCount: int, startLevel: int, steps: int, tokens: seq<string>)
    requires ValidationError(levelCount, startLevel, steps).Some?
    ensures Calculate(levelCount, startLevel, steps, tokens) == Err(ValidationError(levelCount, startLevel, steps).value)
  {
  }

  /** A computed distribution has one entry per level, total mass 1, no
      negative entry and no mass below the start level. */
  lemma CalculatedDistribution(levelCount: int, startLevel: int, steps: int, tokens: seq<string>)
    requires Calculate(levelCount, startLevel, steps, tokens).Ok?
    ensures var d := Calculate(levelCount, startLevel, steps, tokens).value;
      |d| == levelCount && Sum(d) == 1.0 && NonNegative(d) && EmptyBelow(d, startLevel - 1)
  {
    var u := UpgradeProbabilities(levelCount, startLevel, Readings(tokens)).value;
    Distributed(levelCount, startLevel, steps, u);
  }

  /** Any ladder of probabilities in [0, 1] that is empty below the start
      turns the unit vector at the start into a distribution. */
  lemma Distributed(levelCount: int, startLevel: int, steps: nat, u: seq<real>)
    requires 2 <= levelCount && 1 <= startLevel <= levelCount && |u| == levelCount - 1 && AreProbabilities(u)
    ensures var d := Run(Unit(levelCount, startLevel - 1), u, steps);
      |d| == levelCount && Sum(d) == 1.0 && NonNegative(d) && EmptyBelow(d, startLevel - 1)
  {
    var p := Unit(levelCount, startLevel - 1);
    UnitMass(levelCount, startLevel - 1);
    RunConservesMass(p, u, steps);
    RunNonNegative(p, u, steps);
    RunKeepsEmptyBelow(p, u, steps, startLevel - 1);
  }

  /** With no attempts the result is the unit vector at the start level. */
  lemma NoAttempts(levelCount: int, startLevel: int, tokens: seq<string>)
    requires Calculate(levelCount, startLevel, 0, tokens).Ok?
    ensures Calculate(levelCount, startLevel, 0, tokens).value == Unit(levelCount, startLevel - 1)
  {
  }

  /** Tokens beyond the top of the ladder are never read, so they can be
      anything. */
  lemma ExtraTokensIgnored(levelCount: int, startLevel: int, steps: int, tokens: seq<string>, extra: seq<string>)
    requires 2 <= levelCount && 1 <= startLevel <= levelCount && |tokens| >= levelCount - startLevel
    ensures Calculate(levelCount, startLevel, steps, tokens + extra) == Calculate(levelCount, startLevel, steps, tokens)
  {
    var m := levelCount - startLevel;
    assert forall j :: 0 <= j < m ==> Readings(tokens + extra)[j] == Readings(tokens)[j];
    PlacementIgnoresTail(levelCount, startLevel, Readings(tokens + extra), Readings(tokens));
  }

  /** The first token that reaches the ladder and is refused decides the
      error: an unreadable token keeps its parse error, and a number outside
      [0, 1] names the transition from level startLevel + i to the next. */
  lemma FirstRefusalReported(levelCount: int, startLevel: int, steps: int, tokens: seq<string>, i: int)
    requires ValidationError(levelCount, startLevel, steps).None?
    requires 0 <= i < |tokens| && startLevel - 1 + i < levelCount - 1
    requires forall j :: 0 <= j < i ==> Accept(Readings(tokens)[j], startLevel - 1 + j).Ok?
    requires Accept(Readings(tokens)[i], startLevel - 1 + i).Err?
    ensures Readings(tokens)[i].Err? ==>
      Calculate(levelCount, startLevel, steps, tokens) == Err(Readings(tokens)[i].error)
    ensures Readings(tokens)[i].Ok? ==>
      Calculate(levelCount, startLevel, steps, tokens) == Err(InvalidProbability(startLevel + i, startLevel + i + 1))
  {
    var readings := Readings(tokens);
    RefusalIsFirst(levelCount, startLevel, readings, i, Accept(readings[i], startLevel - 1 + i).error);
  }

  /** "150%" on the first transition is refused as a probability of 1.5. */
  lemma OverHundredPercentRefused()
    ensures Calculate(3, 1, 1, ["150%", "50"]) == Err(InvalidProbability(1, 2))
  {
    var tokens := ["150%", "50"];
    OverHundredPercent();
    assert Readings(tokens)[0] == Ok(1.5);
    FirstRefusalReported(3, 1, 1, tokens, 0);
  }

  /** Two levels, "50%" and one attempt: half the mass moves up. */
  lemma OneAttemptAtFiftyPercent()
    ensures Calculate(2, 1, 1, ["50%"]) == Ok([0.5, 0.5])
  {
    FiftyPercentPlaced();
    HalfMovesUp();
  }

  lemma FiftyPercentPlaced()
    ensures UpgradeProbabilities(2, 1, Readings(["50%"])) == Ok([0.5])
  {
    FiftyIsHalf();
    var readings := Readings(["50%"]);
    assert readings[0] == Ok(0.5);
    AcceptedAll(2, 1, readings, [0.5]);
  }

  lemma HalfMovesUp()
    ensures Run(Unit(2, 0), [0.5], 1) == [0.5, 0.5]
  {
    var p := Unit(2, 0);
    assert p == [1.0, 0.0];
    assert Step(p, [0.5]) == [0.5, 0.5];
  }

  /** One token per field the form shows, in order, fills every transition
      from the start level to the top. */
  lemma PromptedTokensFillLadder(levelCount: int, startLevel: int, tokens: seq<string>)
    requires 2 <= levelCount && 1 <= startLevel <= levelCount && |tokens| == levelCount - startLevel
    requires UpgradeProbabilities(levelCount, startLevel, Readings(tokens)).Ok?
    ensures var u := UpgradeProbabilities(levelCount, startLevel, Readings(tokens)).value;
      forall k :: startLevel - 1 <= k < levelCount - 1 ==>
        Ok(u[k]) == Accept(Readings(tokens)[k - (startLevel - 1)], k)
  {
    var readings := Readings(tokens);
    var u := UpgradeProbabilities(levelCount, startLevel, readings).value;
    forall k | startLevel - 1 <= k < levelCount - 1
      ensures Ok(u[k]) == Accept(readings[k - (startLevel - 1)], k)
    {
      var i := k - (startLevel - 1);
      assert Accept(readings[i], startLevel - 1 + i) == Ok(u[startLevel - 1 + i]);
    }
  }
}
