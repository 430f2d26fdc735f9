/**
  Batch IONEX slant delays (`ionex_slant_batch` in
  native/sidereon_nif/src/iono.rs): rows whose receiver is refused are set aside,
  the readable rows are evaluated in one core call, and the results are woven
  back into request order. The core, the receiver frame and the degree-to-radian
  conversion are parameters.
*/
module SlantBatch {
  import opened Wrappers
  import opened Binary64
  import opened Transport

  /** The three named choices of a policy, as the atoms the caller states. */
  datatype PolicyTerm = PolicyTerm(coverage: string, missingNodes: string, mapping: string)

  datatype Policy = Policy(hold: bool, renormalize: bool, declared: bool)

  datatype RequestTerm = RequestTerm(
    latDeg: Bits, lonDeg: Bits, elevationDeg: Bits, azimuthDeg: Bits, epochJ2000S: int, frequencyHz: Bits)

  datatype Request<W> = Request(receiver: W, elevationRad: Bits, azimuthRad: Bits, epochNanos: int, frequencyHz: Bits)

  datatype Core<!W, FE, Ev, CE> = Core(
    radians: Bits -> Bits,
    geodetic: (Bits, Bits, Bits) -> Result<W, FE>,
    single: (Request<W>, Policy) -> Result<Ev, CE>,
    results: (seq<Request<W>>, Policy) -> seq<Result<Ev, CE>>)

  /** The core's batch contract: one result per request, in order, each the one a single query gives. */
  ghost predicate OneResultEach<W(!new), FE(!new), Ev(!new), CE(!new)>(core: Core<W, FE, Ev, CE>) {
    forall requests, policy ::
      && |core.results(requests, policy)| == |requests|
      && forall j :: 0 <= j < |requests| ==> core.results(requests, policy)[j] == core.single(requests[j], policy)
  }

  datatype Row<FE, Ev, CE> =
    | Evaluated(evaluation: Ev)         // {:ok, evaluation}
    | ReceiverRefused(frame: FE)        // {:error, {:invalid_field, field, reason}}
    | CoreRefused(core: CE)             // {:error, reason}
    | Unhandled                         // {:error, {:unhandled, "... fewer results than requests"}}

  function DecodeMissingNodes(term: string): Result<bool, string> {
    if term == "strict" then Ok(false)
    else if term == "renormalize" then Ok(true)
    else Err("unknown missing_nodes policy")
  }

  function DecodePolicy(term: PolicyTerm): Result<Policy, string> {
    if term.coverage != "strict" && term.coverage != "hold" then Err("unknown coverage policy")
    else
      match DecodeMissingNodes(term.missingNodes)
      case Err(message) => Err(message)
      case Ok(renormalize) =>
        if term.mapping != "single_layer" && term.mapping != "declared" then Err("unknown mapping policy")
        else Ok(Policy(term.coverage == "hold", renormalize, term.mapping == "declared"))
  }

  /** A policy is read from exactly the three names that state it; no unknown name falls
      back on a default, and the first unknown one is what is complained of. */
  lemma {:induction false} PolicyNames(term: PolicyTerm, p: Policy)
    ensures DecodePolicy(term) == Ok(p) <==>
            && term.coverage == (if p.hold then "hold" else "strict")
            && term.missingNodes == (if p.renormalize then "renormalize" else "strict")
            && term.mapping == (if p.declared then "declared" else "single_layer")
    ensures DecodePolicy(term).Err? ==>
            DecodePolicy(term).error ==
            if term.coverage != "hold" && term.coverage != "strict" then "unknown coverage policy"
            else if term.missingNodes != "renormalize" && term.missingNodes != "strict"
            then "unknown missing_nodes policy"
            else "unknown mapping policy"
  {
  }

  /** What the answer to a request has to be, in terms of the core alone: the receiver
      is at its latitude and longitude, in that order, on the ellipsoid, and the core is
      asked for it, the elevation, the azimuth, the epoch in nanoseconds and the frequency. */
  ghost predicate Answers<W, FE, Ev, CE>(
    core: Core<W, FE, Ev, CE>, term: RequestTerm, policy: Policy, row: Row<FE, Ev, CE>)
  {
    match core.geodetic(core.radians(term.latDeg), core.radians(term.lonDeg), 0)
    case Err(e) => row == ReceiverRefused(e)
    case Ok(w) =>
      var asked := Request(w, core.radians(term.elevationDeg), core.radians(term.azimuthDeg),
                           term.epochJ2000S * 1_000_000_000, term.frequencyHz);
      match core.single(asked, policy)
      case Ok(ev) => row == Evaluated(ev)
      case Err(e) => row == CoreRefused(e)
  }

  function SlantReceiver<W, FE, Ev, CE>(core: Core<W, FE, Ev, CE>, latDeg: Bits, lonDeg: Bits): Result<W, FE> {
    core.geodetic(core.radians(latDeg), core.radians(lonDeg), 0)
  }

  /** One query on its own (`ionex_slant_with_policy` through `evaluate_slant`). */
  function Single<W, FE, Ev, CE>(core: Core<W, FE, Ev, CE>, term: RequestTerm, policy: Policy): Row<FE, Ev, CE> {
    match SlantReceiver(core, term.latDeg, term.lonDeg)
    case Err(e) => ReceiverRefused(e)
    case Ok(receiver) =>
      var epoch := term.epochJ2000S * 1_000_000_000;
      match core.single(Request(receiver, core.radians(term.elevationDeg), core.radians(term.azimuthDeg),
                                epoch, term.frequencyHz), policy)
      case Ok(ev) => Evaluated(ev)
      case Err(e) => CoreRefused(e)
  }

  lemma {:induction false} SingleAnswers<W, FE, Ev, CE>(core: Core<W, FE, Ev, CE>, term: RequestTerm, policy: Policy)
    ensures Answers(core, term, policy, Single(core, term, policy))
  {
  }

  datatype Prepared<W, FE> = Ready(request: Request<W>) | Invalid(error: FE)

  function Prepare<W, FE, Ev, CE>(core: Core<W, FE, Ev, CE>, term: RequestTerm): Prepared<W, FE> {
    match SlantReceiver(core, term.latDeg, term.lonDeg)
    case Ok(receiver) =>
      Ready(Request(receiver, core.radians(term.elevationDeg), core.radians(term.azimuthDeg),
                    term.epochJ2000S * 1_000_000_000, term.frequencyHz))
    case Err(e) => Invalid(e)
  }

  /** The readable requests among the prepared ones, in order. */
  function ReadyOf<W, FE>(prepared: seq<Prepared<W, FE>>): seq<Request<W>> {
    if prepared == [] then []
    else
      var n := |prepared| - 1;
      ReadyOf(prepared[..n]) + if prepared[n].Ready? then [prepared[n].request] else []
  }

  /** How many readable rows come before row `i`: the place of its result in the batch. */
  function Rank<W, FE>(prepared: seq<Prepared<W, FE>>, i: nat): nat
    requires i <= |prepared|
  {
    |ReadyOf(prepared[..i])|
  }

  function RowOf<FE, Ev, CE>(result: Result<Ev, CE>): Row<FE, Ev, CE> {
    if result.Ok? then Evaluated(result.value) else CoreRefused(result.error)
  }

  /** Row `i` in terms of the batch results alone. */
  function WovenRow<W, FE, Ev, CE>(
    prepared: seq<Prepared<W, FE>>, results: seq<Result<Ev, CE>>, i: nat): Row<FE, Ev, CE>
    requires i < |prepared|
  {
    match prepared[i]
    case Invalid(e) => ReceiverRefused(e)
    case Ready(_) => if Rank(prepared, i) < |results| then RowOf(results[Rank(prepared, i)]) else Unhandled
  }

  function PrepareAll<W, FE, Ev, CE>(core: Core<W, FE, Ev, CE>, requests: seq<RequestTerm>): (r: seq<Prepared<W, FE>>)
    ensures |r| == |requests|
  {
    seq(|requests|, i requires 0 <= i < |requests| => Prepare(core, requests[i]))
  }

  /** The first pass: the readable requests, in order. */
  method CollectReady<W, FE>(prepared: seq<Prepared<W, FE>>) returns (ready: seq<Request<W>>)
    ensures ready == ReadyOf(prepared)
  {
    ready := [];
    for i := 0 to |prepared|
      invariant ready == ReadyOf(prepared[..i])
    {
      assert prepared[..i + 1][..i] == prepared[..i];
      if prepared[i].Ready? { ready := ready + [prepared[i].request]; }
    }
    assert prepared[..|prepared|] == prepared;
  }

  /** The second pass: an iterator over the results, advanced once per readable row. */
  method WeaveRows<W, FE, Ev, CE>(prepared: seq<Prepared<W, FE>>, results: seq<Result<Ev, CE>>)
    returns (rows: seq<Row<FE, Ev, CE>>)
    ensures |rows| == |prepared|
    ensures forall i :: 0 <= i < |prepared| ==> rows[i] == WovenRow(prepared, results, i)
  {
    var taken := 0;
    rows := [];
    for i := 0 to |prepared|
      invariant |rows| == i
      invariant taken == if Rank(prepared, i) <= |results| then Rank(prepared, i) else |results|
      invariant forall j :: 0 <= j < i ==> rows[j] == WovenRow(prepared, results, j)
    {
      assert prepared[..i + 1][..i] == prepared[..i];
      match prepared[i]
      case Invalid(e) => rows := rows + [ReceiverRefused(e)];
      case Ready(_) =>
        if taken < |results| {
          rows := rows + [RowOf(results[taken])];
          taken := taken + 1;
        } else {
          rows := rows + [Unhandled];
        }
    }
  }

  /** `ionex_slant_batch`. Under the core's contract row `i` is what a single query
      answers to request `i`; whatever the core returns, each row is its own
      refusal, its own result, or unhandled. */
  method Batch<W(!new), FE(!new), Ev(!new), CE(!new)>(
    core: Core<W, FE, Ev, CE>, requests: seq<RequestTerm>, policyTerm: PolicyTerm)
    returns (r: Result<seq<Row<FE, Ev, CE>>, string>)
    ensures match DecodePolicy(policyTerm)
            case Err(message) => r == Err(message)
            case Ok(policy) =>
              var prepared := PrepareAll(core, requests);
              && r.Ok? && |r.value| == |requests|
              && forall i :: 0 <= i < |requests| ==>
                   && r.value[i] == WovenRow(prepared, core.results(ReadyOf(prepared), policy), i)
                   && (OneResultEach(core) ==> r.value[i] == Single(core, requests[i], policy))
                   && (OneResultEach(core) ==> Answers(core, requests[i], policy, r.value[i]))
  {
    var decoded := DecodePolicy(policyTerm);
    if decoded.Err? { return Err(decoded.error); }
    var policy := decoded.value;
    var prepared := PrepareAll(core, requests);
    var ready := CollectReady(prepared);
    var rows := WeaveRows(prepared, core.results(ready, policy));
    forall i | 0 <= i < |requests| && OneResultEach(core)
      ensures rows[i] == Single(core, requests[i], policy) && Answers(core, requests[i], policy, rows[i])
    {
      BatchIsPointwise(core, requests, policy, i);
      SingleAnswers(core, requests[i], policy);
    }
    return Ok(rows);
  }

  /** A readable row's place in the batch is where its own request went. */
  lemma {:induction false} RankFindsRequest<W, FE>(prepared: seq<Prepared<W, FE>>, i: nat)
    requires i < |prepared| && prepared[i].Ready?
    ensures Rank(prepared, i) < |ReadyOf(prepared)|
    ensures ReadyOf(prepared)[Rank(prepared, i)] == prepared[i].request
    decreases |prepared|
  {
    var n := |prepared| - 1;
    if i < n {
      RankFindsRequest(prepared[..n], i);
      assert prepared[..n][..i] == prepared[..i];
    }
  }

  lemma {:induction false} RankGrows<W, FE>(prepared: seq<Prepared<W, FE>>, i: nat, j: nat)
    requires i < j <= |prepared|
    ensures Rank(prepared, i) + (if prepared[i].Ready? then 1 else 0) <= Rank(prepared, j)
    decreases j
  {
    assert prepared[..j][..j - 1] == prepared[..j - 1];
    if i < j - 1 { RankGrows(prepared, i, j - 1); }
  }

  /** Under the core's contract the woven rows are the plain map of the single
      query over the requests: no invalid row shifts another. */
  lemma {:induction false} BatchIsPointwise<W(!new), FE(!new), Ev(!new), CE(!new)>(
    core: Core<W, FE, Ev, CE>, requests: seq<RequestTerm>, policy: Policy, i: nat)
    requires OneResultEach(core) && i < |requests|
    ensures var prepared := PrepareAll(core, requests);
            WovenRow(prepared, core.results(ReadyOf(prepared), policy), i) == Single(core, requests[i], policy)
  {
    var prepared := PrepareAll(core, requests);
    if prepared[i].Ready? {
      RankFindsRequest(prepared, i);
    }
  }

  /** What the core is asked in a batch, and what becomes of its results, whatever they
      are: a refused receiver is its own row's answer; any other row has its request, of
      its own receiver and angles, at its own place, and the result found there. */
  lemma {:induction false} AskedInOrder<W, FE, Ev, CE>(
    core: Core<W, FE, Ev, CE>, requests: seq<RequestTerm>, results: seq<Result<Ev, CE>>, i: nat)
    requires i < |requests|
    ensures var prepared := PrepareAll(core, requests);
            var term, row, rank := requests[i], WovenRow(prepared, results, i), Rank(prepared, i);
            match core.geodetic(core.radians(term.latDeg), core.radians(term.lonDeg), 0)
            case Err(e) => row == ReceiverRefused(e)
            case Ok(w) =>
              && rank < |ReadyOf(prepared)|
              && ReadyOf(prepared)[rank] ==
                 Request(w, core.radians(term.elevationDeg), core.radians(term.azimuthDeg),
                         term.epochJ2000S * 1_000_000_000, term.frequencyHz)
              && row == if rank >= |results| then Unhandled
                        else if results[rank].Ok? then Evaluated(results[rank].value)
                        else CoreRefused(results[rank].error)
  {
    var prepared := PrepareAll(core, requests);
    if prepared[i].Ready? { RankFindsRequest(prepared, i); }
  }

  /** A result list of any length `n` marks unhandled exactly the readable rows
      past the first `n` of them; the rows before those are what a full list gives. */
  lemma {:induction false} ShortResults<W, FE, Ev, CE>(
    prepared: seq<Prepared<W, FE>>, results: seq<Result<Ev, CE>>, n: nat, i: nat)
    requires n <= |results| == |ReadyOf(prepared)| && i < |prepared|
    ensures WovenRow(prepared, results[..n], i) ==
            if prepared[i].Ready? && Rank(prepared, i) >= n then Unhandled else WovenRow(prepared, results, i)
    ensures !WovenRow(prepared, results, i).Unhandled?
    ensures forall j :: i < j < |prepared| && prepared[j].Ready? && WovenRow(prepared, results[..n], i).Unhandled? ==>
              WovenRow(prepared, results[..n], j).Unhandled?
  {
    if prepared[i].Ready? { RankFindsRequest(prepared, i); }
    forall j | i < j < |prepared| && prepared[j].Ready? && WovenRow(prepared, results[..n], i).Unhandled?
      ensures WovenRow(prepared, results[..n], j).Unhandled?
    {
      RankGrows(prepared, i, j);
    }
  }
}
