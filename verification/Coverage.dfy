/**
  Look-angle grids of many satellites over many stations
  (native/sidereon_nif/src/coverage.rs). The detailed grid sets failed satellites
  aside, evaluates the others in one core call and weaves the rows back together;
  the plain grid gives up at the first satellite it cannot build.
*/
module Coverage {
  import opened Wrappers

  datatype LookError<SE, FE> = Init(sgp4: SE) | OtherLook(detail: FE)

  datatype Core<!M, !S, !P, !D, !I, BE, SE, FE, L> = Core(
    elements: M -> Result<I, BE>,                  // elements_from_map
    init: I -> Result<S, SE>,                      // Satellite::from_elements_with_opsmode
    instant: D -> Option<int>,                     // instant_from_datetime_tuple
    lookAngles: (seq<S>, seq<P>, int) -> seq<seq<Result<L, LookError<SE, FE>>>>,
    cell: (S, P, int) -> Result<L, LookError<SE, FE>>)

  /** The core's batch contract: one row per satellite, one cell per station, in order. */
  ghost predicate RowEach<M, S(!new), P(!new), D, I, BE, SE(!new), FE(!new), L(!new)>(
    core: Core<M, S, P, D, I, BE, SE, FE, L>)
  {
    forall sats, stations, at ::
      && |core.lookAngles(sats, stations, at)| == |sats|
      && forall i :: 0 <= i < |sats| ==>
           core.lookAngles(sats, stations, at)[i] ==
           seq(|stations|, k requires 0 <= k < |stations| => core.cell(sats[i], stations[k], at))
  }

  datatype Failure<BE, SE> =
    | BadElements(elements: BE)
    | InitFailed(index: Option<nat>, sgp4: SE)
    | BadDatetime
    | RowCountMismatch

  datatype Outcome<C, BE, SE> = Grid(rows: seq<seq<C>>) | Raised(failure: Failure<BE, SE>)

  // ---------------------------------------------------------------------
  // What the grids are, row by row
  // ---------------------------------------------------------------------

  /** What one element map gives: elements that do not decode, elements SGP4
      refuses, or a satellite. */
  datatype Built<S, BE, SE> = NoElements(elements: BE) | NoSatellite(sgp4: SE) | Satellite(satellite: S)

  function Build<M, S, P, D, I, BE, SE, FE, L>(core: Core<M, S, P, D, I, BE, SE, FE, L>, m: M): Built<S, BE, SE> {
    match core.elements(m)
    case Err(e) => NoElements(e)
    case Ok(elements) =>
      match core.init(elements)
      case Err(e) => NoSatellite(e)
      case Ok(s) => Satellite(s)
  }

  function BuildAll<M, S, P, D, I, BE, SE, FE, L>(core: Core<M, S, P, D, I, BE, SE, FE, L>, maps: seq<M>):
    (r: seq<Built<S, BE, SE>>)
    ensures |r| == |maps|
  {
    seq(|maps|, i requires 0 <= i < |maps| => Build(core, maps[i]))
  }

  /** The least index at which a test holds. */
  function First<T>(xs: seq<T>, holds: T -> bool): (r: Option<nat>)
    ensures r.Some? ==> r.value < |xs| && holds(xs[r.value]) && forall i :: 0 <= i < r.value ==> !holds(xs[i])
    ensures r.None? ==> forall i :: 0 <= i < |xs| ==> !holds(xs[i])
  {
    if xs == [] then None
    else
      var n := |xs| - 1;
      match First(xs[..n], holds)
      case Some(i) => assert xs[..n][i] == xs[i]; Some(i)
      case None => if holds(xs[n]) then Some(n) else None
  }

  type Detail<L, SE, FE> = Result<L, LookError<SE, FE>>

  function DetailedRow<M, S, P, D, I, BE, SE, FE, L>(
    core: Core<M, S, P, D, I, BE, SE, FE, L>, built: Built<S, BE, SE>, stations: seq<P>, at: int):
    seq<Detail<L, SE, FE>>
    requires !built.NoElements?
  {
    match built
    case Satellite(s) => seq(|stations|, k requires 0 <= k < |stations| => core.cell(s, stations[k], at))
    case NoSatellite(e) => seq(|stations|, _ => Err(Init(e)))
  }

  /** The detailed grid: satellite `i`'s own row, or its own error once per station. */
  function DetailedGrid<M, S, P, D, I, BE, SE, FE, L>(
    core: Core<M, S, P, D, I, BE, SE, FE, L>, maps: seq<M>, stations: seq<P>, datetime: D):
    Outcome<Detail<L, SE, FE>, BE, SE>
  {
    var built := BuildAll(core, maps);
    var unread := First(built, (b: Built<S, BE, SE>) => b.NoElements?);
    var failed := First(built, (b: Built<S, BE, SE>) => b.NoSatellite?);
    if unread.Some? then Raised(BadElements(built[unread.value].elements))
    else if stations == [] && failed.Some? then Raised(InitFailed(Some(failed.value), built[failed.value].sgp4))
    else
      match core.instant(datetime)
      case None => Raised(BadDatetime)
      case Some(at) => Grid(seq(|maps|, i requires 0 <= i < |maps| => DetailedRow(core, built[i], stations, at)))
  }

  /** The plain grid: nothing but values and bare errors, and no satellite may fail. */
  function PlainGrid<M, S, P, D, I, BE, SE, FE, L>(
    core: Core<M, S, P, D, I, BE, SE, FE, L>, maps: seq<M>, stations: seq<P>, datetime: D):
    Outcome<Option<L>, BE, SE>
  {
    var built := BuildAll(core, maps);
    var bad := First(built, (b: Built<S, BE, SE>) => !b.Satellite?);
    if bad.Some? then
      Raised(if built[bad.value].NoElements? then BadElements(built[bad.value].elements)
             else InitFailed(None, built[bad.value].sgp4))
    else
      match core.instant(datetime)
      case None => Raised(BadDatetime)
      case Some(at) =>
        Grid(seq(|maps|, i requires 0 <= i < |maps| =>
          seq(|stations|, k requires 0 <= k < |stations| => Erase(core.cell(built[i].satellite, stations[k], at)))))
  }

  function Erase<L, SE, FE>(cell: Detail<L, SE, FE>): Option<L> {
    if cell.Ok? then Some(cell.value) else None
  }

  predicate Rectangular<C>(rows: seq<seq<C>>, height: nat, width: nat) {
    |rows| == height && forall i :: 0 <= i < height ==> |rows[i]| == width
  }

  /** What satellite `m` at a station gives in the detailed grid, in terms of the core
      alone: the core's own cell, or the error its initialization ended with. */
  ghost predicate CellOf<M, S, P, D, I, BE, SE, FE, L>(
    core: Core<M, S, P, D, I, BE, SE, FE, L>, m: M, station: P, datetime: D, cell: Detail<L, SE, FE>)
  {
    && core.elements(m).Ok? && core.instant(datetime).Some?
    && match core.init(core.elements(m).value)
       case Ok(s) => cell == core.cell(s, station, core.instant(datetime).value)
       case Err(e) => cell == Err(Init(e))
  }

  /** What it gives in the plain grid: the core's look, or a bare error. */
  ghost predicate LookOf<M, S, P, D, I, BE, SE, FE, L>(
    core: Core<M, S, P, D, I, BE, SE, FE, L>, m: M, station: P, datetime: D, look: Option<L>)
  {
    && core.elements(m).Ok? && core.init(core.elements(m).value).Ok? && core.instant(datetime).Some?
    && match core.cell(core.init(core.elements(m).value).value, station, core.instant(datetime).value)
       case Ok(l) => look == Some(l)
       case Err(_) => look == None
  }

  /** The grids cell by cell, naming nothing but the core. */
  lemma {:induction false} CellsSpelledOut<M, S, P, D, I, BE, SE, FE, L>(
    core: Core<M, S, P, D, I, BE, SE, FE, L>, maps: seq<M>, stations: seq<P>, datetime: D, i: nat, k: nat)
    requires i < |maps| && k < |stations|
    ensures var detailed := DetailedGrid(core, maps, stations, datetime);
            detailed.Grid? ==>
              && Rectangular(detailed.rows, |maps|, |stations|)
              && CellOf(core, maps[i], stations[k], datetime, detailed.rows[i][k])
    ensures var plain := PlainGrid(core, maps, stations, datetime);
            plain.Grid? ==>
              && Rectangular(plain.rows, |maps|, |stations|)
              && LookOf(core, maps[i], stations[k], datetime, plain.rows[i][k])
  {
    var built := BuildAll(core, maps);
    assert built[i] == Build(core, maps[i]);
  }

  lemma {:induction false} DetailedCells<M, S, P, D, I, BE, SE, FE, L>(
    core: Core<M, S, P, D, I, BE, SE, FE, L>, maps: seq<M>, stations: seq<P>, datetime: D)
    ensures var detailed := DetailedGrid(core, maps, stations, datetime);
            detailed.Grid? ==>
              && Rectangular(detailed.rows, |maps|, |stations|)
              && forall i, k :: 0 <= i < |maps| && 0 <= k < |stations| ==>
                   CellOf(core, maps[i], stations[k], datetime, detailed.rows[i][k])
  {
    var detailed := DetailedGrid(core, maps, stations, datetime);
    forall i, k | detailed.Grid? && 0 <= i < |maps| && 0 <= k < |stations|
      ensures CellOf(core, maps[i], stations[k], datetime, detailed.rows[i][k])
    {
      CellsSpelledOut(core, maps, stations, datetime, i, k);
    }
  }

  /** What is raised instead of a grid: elements that do not decode, of the first map
      that has any fault or (detailed) of the first such map; an error of SGP4, of the
      first map that has any fault or (detailed) of the first such map by its index, and
      only where there are no stations; then the date and time. */
  lemma {:induction false} RaisedSpelledOut<M, S, P, D, I, BE, SE, FE, L>(
    core: Core<M, S, P, D, I, BE, SE, FE, L>, maps: seq<M>, stations: seq<P>, datetime: D)
    ensures match PlainGrid(core, maps, stations, datetime)
            case Grid(_) => true
            case Raised(BadDatetime) => core.instant(datetime).None? && AllInit(core, maps)
            case Raised(BadElements(e)) =>
              exists i :: 0 <= i < |maps| && AllInit(core, maps[..i]) && core.elements(maps[i]) == Err(e)
            case Raised(InitFailed(index, e)) =>
              index == None &&
              exists i :: 0 <= i < |maps| && AllInit(core, maps[..i]) && core.elements(maps[i]).Ok?
                          && core.init(core.elements(maps[i]).value) == Err(e)
            case Raised(RowCountMismatch) => false
    ensures match DetailedGrid(core, maps, stations, datetime)
            case Grid(_) => AllDecode(core, maps)
            case Raised(BadDatetime) => core.instant(datetime).None? && AllDecode(core, maps)
            case Raised(BadElements(e)) =>
              exists i :: 0 <= i < |maps| && AllDecode(core, maps[..i]) && core.elements(maps[i]) == Err(e)
            case Raised(InitFailed(index, e)) =>
              && stations == [] && AllDecode(core, maps)
              && index.Some? && index.value < |maps| && AllInit(core, maps[..index.value])
              && core.init(core.elements(maps[index.value]).value) == Err(e)
            case Raised(RowCountMismatch) => false
  {
    var built := BuildAll(core, maps);
    assert forall i :: 0 <= i < |maps| ==> built[i] == Build(core, maps[i]);
  }

  predicate AllDecode<M, S, P, D, I, BE, SE, FE, L>(core: Core<M, S, P, D, I, BE, SE, FE, L>, maps: seq<M>) {
    forall i :: 0 <= i < |maps| ==> core.elements(maps[i]).Ok?
  }

  predicate AllInit<M, S, P, D, I, BE, SE, FE, L>(core: Core<M, S, P, D, I, BE, SE, FE, L>, maps: seq<M>) {
    forall i :: 0 <= i < |maps| ==> core.elements(maps[i]).Ok? && core.init(core.elements(maps[i]).value).Ok?
  }

  /** With the error detail erased, a detailed grid is the plain grid exactly when
      every satellite initialized; and the plain call succeeds in that case only. */
  lemma {:induction false} GridsAgree<M, S, P, D, I, BE, SE, FE, L>(
    core: Core<M, S, P, D, I, BE, SE, FE, L>, maps: seq<M>, stations: seq<P>, datetime: D)
    ensures var plain := PlainGrid(core, maps, stations, datetime);
            var detailed := DetailedGrid(core, maps, stations, datetime);
            var built := BuildAll(core, maps);
            && (plain.Grid? <==> detailed.Grid? && forall i :: 0 <= i < |built| ==> built[i].Satellite?)
            && (detailed.Grid? ==> Rectangular(detailed.rows, |maps|, |stations|))
            && (plain.Grid? ==>
                  && Rectangular(plain.rows, |maps|, |stations|)
                  && forall i, k :: 0 <= i < |maps| && 0 <= k < |stations| ==>
                       match detailed.rows[i][k]
                       case Ok(look) => plain.rows[i][k] == Some(look)
                       case Err(_) => plain.rows[i][k] == None)
  {
    var built := BuildAll(core, maps);
    var unread := First(built, (b: Built<S, BE, SE>) => b.NoElements?);
    var failed := First(built, (b: Built<S, BE, SE>) => b.NoSatellite?);
    var bad := First(built, (b: Built<S, BE, SE>) => !b.Satellite?);
    if bad.Some? {
      assert !built[bad.value].Satellite?;
    } else {
      assert unread.None? && failed.None?;
      var plain, detailed := PlainGrid(core, maps, stations, datetime), DetailedGrid(core, maps, stations, datetime);
      forall i, k | plain.Grid? && 0 <= i < |maps| && 0 <= k < |stations|
        ensures match detailed.rows[i][k] case Ok(look) => plain.rows[i][k] == Some(look)
                                          case Err(_) => plain.rows[i][k] == None
      {
        CellsSpelledOut(core, maps, stations, datetime, i, k);
      }
    }
  }

  // ---------------------------------------------------------------------
  // The calls
  // ---------------------------------------------------------------------

  function Satellites<S, BE, SE>(built: seq<Built<S, BE, SE>>): seq<S> {
    if built == [] then []
    else
      var n := |built| - 1;
      Satellites(built[..n]) + if built[n].Satellite? then [built[n].satellite] else []
  }

  lemma {:induction false} RankFindsSatellite<S, BE, SE>(built: seq<Built<S, BE, SE>>, i: nat)
    requires i < |built| && built[i].Satellite?
    ensures |Satellites(built[..i])| < |Satellites(built)|
    ensures Satellites(built)[|Satellites(built[..i])|] == built[i].satellite
    decreases |built|
  {
    var n := |built| - 1;
    if i < n {
      RankFindsSatellite(built[..n], i);
      assert built[..n][..i] == built[..i];
    }
  }

  function EraseAll<L, SE, FE>(cells: seq<seq<Detail<L, SE, FE>>>): seq<seq<Option<L>>> {
    seq(|cells|, i requires 0 <= i < |cells| =>
      seq(|cells[i]|, k requires 0 <= k < |cells[i]| => Erase(cells[i][k])))
  }

  /** `satellites_from_maps`: every satellite, or the fault of the first map that gives none. */
  method SatellitesFromMaps<M, S, P, D, I, BE, SE, FE, L>(core: Core<M, S, P, D, I, BE, SE, FE, L>, maps: seq<M>)
    returns (r: Result<seq<S>, Failure<BE, SE>>)
    ensures var built := BuildAll(core, maps);
            match First(built, (b: Built<S, BE, SE>) => !b.Satellite?)
            case Some(i) =>
              r == Err(if built[i].NoElements? then BadElements(built[i].elements) else InitFailed(None, built[i].sgp4))
            case None =>
              && r.Ok? && |r.value| == |maps|
              && forall i :: 0 <= i < |maps| ==> built[i] == Satellite(r.value[i])
  {
    ghost var built := BuildAll(core, maps);
    ghost var bad := First(built, (b: Built<S, BE, SE>) => !b.Satellite?);
    var satellites: seq<S> := [];
    for i := 0 to |maps|
      invariant |satellites| == i
      invariant forall j :: 0 <= j < i ==> built[j] == Satellite(satellites[j])
    {
      assert built[i] == Build(core, maps[i]);
      var elements := core.elements(maps[i]);
      if elements.Err? { return Err(BadElements(elements.error)); }
      var satellite := core.init(elements.value);
      if satellite.Err? { return Err(InitFailed(None, satellite.error)); }
      satellites := satellites + [satellite.value];
    }
    return Ok(satellites);
  }

  /** `coverage_look_angles`. */
  method LookAngles<M, S(!new), P(!new), D, I, BE, SE(!new), FE(!new), L(!new)>(
    core: Core<M, S, P, D, I, BE, SE, FE, L>, maps: seq<M>, stations: seq<P>, datetime: D)
    returns (r: Outcome<Option<L>, BE, SE>)
    ensures RowEach(core) || r.Raised? ==> r == PlainGrid(core, maps, stations, datetime)
    ensures RowEach(core) && r.Grid? ==>
              && Rectangular(r.rows, |maps|, |stations|)
              && forall i, k :: 0 <= i < |maps| && 0 <= k < |stations| ==>
                   LookOf(core, maps[i], stations[k], datetime, r.rows[i][k])
  {
    ghost var built := BuildAll(core, maps);
    var satellites := SatellitesFromMaps(core, maps);
    if satellites.Err? { return Raised(satellites.error); }
    var at := core.instant(datetime);
    if at.None? { return Raised(BadDatetime); }
    var cells := core.lookAngles(satellites.value, stations, at.value);
    r := Grid(EraseAll(cells));
    ghost var plain := PlainGrid(core, maps, stations, datetime).rows;
    assert RowEach(core) ==> |r.rows| == |plain|;
    forall i | RowEach(core) && 0 <= i < |maps|
      ensures r.rows[i] == plain[i]
    {
      assert cells[i] == seq(|stations|, k requires 0 <= k < |stations| =>
                             core.cell(satellites.value[i], stations[k], at.value));
      assert r.rows[i] == seq(|cells[i]|, k requires 0 <= k < |cells[i]| => Erase(cells[i][k]));
      assert plain[i] == seq(|stations|, k requires 0 <= k < |stations| =>
                             Erase(core.cell(built[i].satellite, stations[k], at.value)));
    }
    forall i, k | RowEach(core) && 0 <= i < |maps| && 0 <= k < |stations|
      ensures LookOf(core, maps[i], stations[k], datetime, plain[i][k])
    {
      CellsSpelledOut(core, maps, stations, datetime, i, k);
    }
  }

  /** The detailed row in terms of the batch rows alone. */
  ghost predicate WovenRow<S, BE, SE, FE, L>(
    built: seq<Built<S, BE, SE>>, batch: seq<seq<Detail<L, SE, FE>>>, stations: nat, i: nat,
    row: seq<Detail<L, SE, FE>>)
    requires i < |built|
  {
    var rank := |Satellites(built[..i])|;
    match built[i]
    case Satellite(_) => rank < |batch| && row == batch[rank]
    case NoSatellite(e) => row == seq(stations, _ => Err(Init(e)))
    case NoElements(_) => false
  }

  /** What happened to each map, as the detailed call keeps it: no error, or SGP4's. */
  ghost predicate Recorded<S, BE, SE>(built: seq<Built<S, BE, SE>>, results: seq<Option<SE>>) {
    && |results| == |built|
    && forall j :: 0 <= j < |built| ==>
         && !built[j].NoElements?
         && results[j] == if built[j].Satellite? then None else Some(built[j].sgp4)
  }

  /** The first loop: parallel lists of outcomes and of satellites. */
  method Collect<M, S, P, D, I, BE, SE, FE, L>(core: Core<M, S, P, D, I, BE, SE, FE, L>, maps: seq<M>)
    returns (r: Result<(seq<Option<SE>>, seq<S>), BE>)
    ensures var built := BuildAll(core, maps);
            match First(built, (b: Built<S, BE, SE>) => b.NoElements?)
            case Some(i) => r == Err(built[i].elements)
            case None => r.Ok? && Recorded(built, r.value.0) && r.value.1 == Satellites(built)
  {
    ghost var built := BuildAll(core, maps);
    ghost var unread := First(built, (b: Built<S, BE, SE>) => b.NoElements?);
    var results: seq<Option<SE>> := [];
    var satellites: seq<S> := [];
    for i := 0 to |maps|
      invariant Recorded(built[..i], results)
      invariant satellites == Satellites(built[..i])
    {
      assert built[..i + 1][..i] == built[..i];
      assert forall j :: 0 <= j < i ==> built[..i][j] == built[j];
      assert built[i] == Build(core, maps[i]);
      var elements := core.elements(maps[i]);
      if elements.Err? { return Err(elements.error); }
      match core.init(elements.value)
      case Ok(s) =>
        satellites := satellites + [s];
        results := results + [None];
      case Err(e) => results := results + [Some(e)];
    }
    assert built[..|maps|] == built;
    return Ok((results, satellites));
  }

  /** The second loop: an iterator over the batch rows, advanced once per satellite. */
  method Weave<S, BE, SE, FE, L>(
    ghost built: seq<Built<S, BE, SE>>, results: seq<Option<SE>>, batch: seq<seq<Detail<L, SE, FE>>>, stations: nat)
    returns (r: Option<seq<seq<Detail<L, SE, FE>>>>)
    requires Recorded(built, results)
    ensures r.None? <==> |batch| < |Satellites(built)|
    ensures r.Some? ==> |r.value| == |built|
    ensures r.Some? ==> forall j :: 0 <= j < |built| ==> WovenRow(built, batch, stations, j, r.value[j])
  {
    var taken := 0;
    var rows: seq<seq<Detail<L, SE, FE>>> := [];
    for i := 0 to |results|
      invariant |rows| == i
      invariant taken == |Satellites(built[..i])| <= |batch|
      invariant forall j :: 0 <= j < i ==> WovenRow(built, batch, stations, j, rows[j])
    {
      assert built[..i + 1][..i] == built[..i];
      match results[i]
      case None =>
        RankFindsSatellite(built, i);
        if taken >= |batch| { return None; }
        rows := rows + [batch[taken]];
        taken := taken + 1;
      case Some(e) => rows := rows + [seq(stations, _ => Err(Init(e)))];
    }
    assert built[..|results|] == built;
    return Some(rows);
  }

  lemma {:induction false} FirstFailure<S, BE, SE>(built: seq<Built<S, BE, SE>>, results: seq<Option<SE>>)
    requires Recorded(built, results)
    ensures First(results, (e: Option<SE>) => e.Some?) == First(built, (b: Built<S, BE, SE>) => b.NoSatellite?)
  {
    var a := First(results, (e: Option<SE>) => e.Some?);
    var b := First(built, (b: Built<S, BE, SE>) => b.NoSatellite?);
    assert a.Some? ==> built[a.value].NoSatellite?;
    assert b.Some? ==> results[b.value].Some?;
  }

  /** `coverage_look_angles_detailed`. Under the batch contract the grid is the
      pointwise one; the row-count mismatch is raised exactly when the core
      returns fewer rows than it was given satellites. */
  method LookAnglesDetailed<M, S(!new), P(!new), D, I, BE, SE(!new), FE(!new), L(!new)>(
    core: Core<M, S, P, D, I, BE, SE, FE, L>, maps: seq<M>, stations: seq<P>, datetime: D)
    returns (r: Outcome<Detail<L, SE, FE>, BE, SE>)
    ensures RowEach(core) ==> r == DetailedGrid(core, maps, stations, datetime)
    ensures RowEach(core) && r.Grid? ==>
              && Rectangular(r.rows, |maps|, |stations|)
              && forall i, k :: 0 <= i < |maps| && 0 <= k < |stations| ==>
                   CellOf(core, maps[i], stations[k], datetime, r.rows[i][k])
    ensures var satellites := Satellites(BuildAll(core, maps));
            r == Raised(RowCountMismatch) <==>
            && DetailedGrid(core, maps, stations, datetime).Grid?
            && |core.lookAngles(satellites, stations, core.instant(datetime).value)| < |satellites|
    ensures r.Raised? && r.failure != RowCountMismatch ==> r == DetailedGrid(core, maps, stations, datetime)
  {
    var collected := Collect(core, maps);
    if collected.Err? { return Raised(BadElements(collected.error)); }
    var (results, satellites) := collected.value;
    ghost var built := BuildAll(core, maps);
    FirstFailure(built, results);
    if stations == [] {
      var first := First(results, (e: Option<SE>) => e.Some?);
      if first.Some? { return Raised(InitFailed(Some(first.value), results[first.value].value)); }
    }
    var at := core.instant(datetime);
    if at.None? { return Raised(BadDatetime); }
    var woven := Weave(built, results, core.lookAngles(satellites, stations, at.value), |stations|);
    if woven.None? { return Raised(RowCountMismatch); }
    r := Grid(woven.value);
    if RowEach(core) {
      WovenIsPointwise(core, built, stations, at.value, woven.value);
      assert r.rows == DetailedGrid(core, maps, stations, datetime).rows;
      DetailedCells(core, maps, stations, datetime);
    }
  }

  lemma {:induction false} WovenIsPointwise<M, S(!new), P(!new), D, I, BE, SE(!new), FE(!new), L(!new)>(
    core: Core<M, S, P, D, I, BE, SE, FE, L>, built: seq<Built<S, BE, SE>>, stations: seq<P>, at: int,
    rows: seq<seq<Detail<L, SE, FE>>>)
    requires RowEach(core) && |rows| == |built|
    requires forall j :: 0 <= j < |built| ==>
               WovenRow(built, core.lookAngles(Satellites(built), stations, at), |stations|, j, rows[j])
    ensures forall j :: 0 <= j < |built| ==>
              !built[j].NoElements? && rows[j] == DetailedRow(core, built[j], stations, at)
  {
    forall j | 0 <= j < |built|
      ensures !built[j].NoElements? && rows[j] == DetailedRow(core, built[j], stations, at)
    {
      assert WovenRow(built, core.lookAngles(Satellites(built), stations, at), |stations|, j, rows[j]);
      if built[j].Satellite? { RankFindsSatellite(built, j); }
    }
  }
}
