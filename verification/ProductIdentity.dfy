/**
  Product identities as sixteen text fields (`product_identity` and
  `product_identity_fields` in native/sidereon_nif/src/data.rs).

  Product families and analysis centers, the calendar check and the identity's
  own validation belong to the core's catalog, which is a parameter.
*/
module ProductIdentity {
  import opened Wrappers
  import opened Numerals

  type U8 = n: nat | n < 256
  type I32 = n: int | -0x8000_0000 <= n < 0x8000_0000

  datatype Publisher = Igs | Code | Esa | Gfz | Whu
  datatype Solution = Final | Rapid | UltraRapid | Predicted | BroadcastSolution | NearRealTime
  datatype Campaign = Operational | MultiGnss | MultiGnssExperiment | BroadcastCampaign
  datatype Format = Sp3 | Ionex | RinexClock | RinexNavigation

  datatype Identity<F, C> = Identity(
    family: F,
    center: C,
    publisher: Publisher,
    solution: Solution,
    campaign: Campaign,
    version: U8,
    year: I32, month: U8, day: U8,
    issue: Option<string>,
    span: string,
    sample: string,
    filename: string,
    format: Format,
    formatVersion: Option<string>,
    horizonDays: Option<U8>)

  datatype Catalog<!F, !C, E> = Catalog(
    familyCode: F -> string,
    parseFamily: string -> Result<F, E>,
    centerCode: C -> string,
    parseCenter: string -> Result<C, E>,
    publisherCode: Publisher -> string,
    solutionCode: Solution -> string,
    campaignCode: Campaign -> string,
    formatCode: Format -> string,
    checkDate: (I32, U8, U8) -> Option<E>,
    validate: Identity<F, C> -> Option<E>)

  /** A code is read back as what it is the code of: by the catalog for families and
      centers, and by the boundary's own lists for the rest. */
  ghost predicate CodesParse<F(!new), C(!new), E(!new)>(catalog: Catalog<F, C, E>) {
    && (forall f :: catalog.parseFamily(catalog.familyCode(f)) == Ok(f))
    && (forall c :: catalog.parseCenter(catalog.centerCode(c)) == Ok(c))
    && (forall p :: ParsePublisher<E>(catalog.publisherCode(p)) == Ok(p))
    && (forall s :: ParseSolution<E>(catalog.solutionCode(s)) == Ok(s))
    && (forall c :: ParseCampaign<E>(catalog.campaignCode(c)) == Ok(c))
    && (forall f :: ParseFormat<E>(catalog.formatCode(f)) == Ok(f))
  }

  datatype Error<E> = CatalogError(error: E) | Inconsistent(field: string)

  // ---------------------------------------------------------------------
  // The fixed codes
  // ---------------------------------------------------------------------

  function PublisherCode(p: Publisher): string {
    match p
    case Igs => "IGS" case Code => "COD" case Esa => "ESA" case Gfz => "GFZ" case Whu => "WUM"
  }

  function ParsePublisher<E>(s: string): Result<Publisher, Error<E>> {
    if s == "IGS" then Ok(Igs)
    else if s == "COD" then Ok(Code)
    else if s == "ESA" then Ok(Esa)
    else if s == "GFZ" then Ok(Gfz)
    else if s == "WUM" then Ok(Whu)
    else Err(Inconsistent("publisher"))
  }

  function SolutionCode(s: Solution): string {
    match s
    case Final => "final" case Rapid => "rapid" case UltraRapid => "ultra_rapid"
    case Predicted => "predicted" case BroadcastSolution => "broadcast" case NearRealTime => "near_real_time"
  }

  function ParseSolution<E>(s: string): Result<Solution, Error<E>> {
    if s == "final" then Ok(Final)
    else if s == "rapid" then Ok(Rapid)
    else if s == "ultra_rapid" then Ok(UltraRapid)
    else if s == "predicted" then Ok(Predicted)
    else if s == "broadcast" then Ok(BroadcastSolution)
    else if s == "near_real_time" then Ok(NearRealTime)
    else Err(Inconsistent("solution_class"))
  }

  function CampaignCode(c: Campaign): string {
    match c
    case Operational => "OPS" case MultiGnss => "MGN" case MultiGnssExperiment => "MGX" case BroadcastCampaign => "BRD"
  }

  function ParseCampaign<E>(s: string): Result<Campaign, Error<E>> {
    if s == "OPS" then Ok(Operational)
    else if s == "MGN" then Ok(MultiGnss)
    else if s == "MGX" then Ok(MultiGnssExperiment)
    else if s == "BRD" then Ok(BroadcastCampaign)
    else Err(Inconsistent("campaign"))
  }

  function FormatCode(f: Format): string {
    match f
    case Sp3 => "SP3" case Ionex => "IONEX" case RinexClock => "RINEX_CLK" case RinexNavigation => "RINEX_NAV"
  }

  function ParseFormat<E>(s: string): Result<Format, Error<E>> {
    if s == "SP3" then Ok(Sp3)
    else if s == "IONEX" then Ok(Ionex)
    else if s == "RINEX_CLK" then Ok(RinexClock)
    else if s == "RINEX_NAV" then Ok(RinexNavigation)
    else Err(Inconsistent("format"))
  }

  // ---------------------------------------------------------------------
  // Fields
  // ---------------------------------------------------------------------

  function ParseU8<E>(s: string, field: string): Result<U8, Error<E>> {
    match ParseUnsigned(s, 255)
    case Some(n) => Ok(n)
    case None => Err(Inconsistent(field))
  }

  function ParseI32<E>(s: string, field: string): Result<I32, Error<E>> {
    match ParseSigned(s, -0x8000_0000, 0x7FFF_FFFF)
    case Some(n) => Ok(n)
    case None => Err(Inconsistent(field))
  }

  /** An empty field is an absent value. */
  function Present(s: string): Option<string> {
    if s == "" then None else Some(s)
  }

  function OrEmpty(s: Option<string>): string {
    if s.Some? then s.value else ""
  }

  function FromCatalog<T, E>(r: Result<T, E>): Result<T, Error<E>> {
    if r.Ok? then Ok(r.value) else Err(CatalogError(r.error))
  }

  /** The fields that name things, in the order they are read. */
  function ParseNames<F, C, E>(catalog: Catalog<F, C, E>, fields: seq<string>):
    Result<(F, C, Publisher, Solution, Campaign), Error<E>>
    requires |fields| == 16
  {
    var family :- FromCatalog(catalog.parseFamily(fields[0]));
    var center :- FromCatalog(catalog.parseCenter(fields[1]));
    var publisher :- ParsePublisher(fields[2]);
    var solution :- ParseSolution(fields[3]);
    var campaign :- ParseCampaign(fields[4]);
    Ok((family, center, publisher, solution, campaign))
  }

  /** The version and the date. */
  function ParseNumbers<E>(fields: seq<string>): Result<(U8, I32, U8, U8), Error<E>>
    requires |fields| == 16
  {
    var version :- ParseU8(fields[5], "filename_version");
    var year :- ParseI32(fields[6], "date");
    var month :- ParseU8(fields[7], "date");
    var day :- ParseU8(fields[8], "date");
    Ok((version, year, month, day))
  }

  function Parse<F, C, E>(catalog: Catalog<F, C, E>, fields: seq<string>): Result<Identity<F, C>, Error<E>> {
    if |fields| != 16 then Err(Inconsistent("field_count"))
    else
      var names :- ParseNames(catalog, fields);
      var numbers :- ParseNumbers(fields);
      var format :- ParseFormat(fields[13]);
      var horizon :- ParseHorizon(fields[15]);
      Checked(catalog, Identity(names.0, names.1, names.2, names.3, names.4,
                                numbers.0, numbers.1, numbers.2, numbers.3,
                                Present(fields[9]), fields[10], fields[11], fields[12],
                                format, Present(fields[14]), horizon))
  }

  /** The calendar check of the date, then the identity's own validation. */
  function Checked<F, C, E>(catalog: Catalog<F, C, E>, id: Identity<F, C>): Result<Identity<F, C>, Error<E>> {
    match catalog.checkDate(id.year, id.month, id.day)
    case Some(e) => Err(CatalogError(e))
    case None =>
      match catalog.validate(id)
      case Some(e) => Err(CatalogError(e))
      case None => Ok(id)
  }

  function ParseHorizon<E>(s: string): Result<Option<U8>, Error<E>> {
    if s == "" then Ok(None)
    else
      var days :- ParseU8(s, "prediction_horizon_days");
      Ok(Some(days))
  }

  function PrintHorizon(days: Option<U8>): string {
    if days.Some? then Print(days.value) else ""
  }

  function Fields<F, C, E>(catalog: Catalog<F, C, E>, id: Identity<F, C>): (fields: seq<string>)
    ensures |fields| == 16
  {
    [catalog.familyCode(id.family), catalog.centerCode(id.center),
     catalog.publisherCode(id.publisher), catalog.solutionCode(id.solution), catalog.campaignCode(id.campaign),
     Print(id.version), PrintSigned(id.year), Print(id.month), Print(id.day),
     OrEmpty(id.issue), id.span, id.sample, id.filename,
     catalog.formatCode(id.format), OrEmpty(id.formatVersion), PrintHorizon(id.horizonDays)]
  }

  function Refusal<T, E>(r: Result<T, Error<E>>): Option<Error<E>> {
    if r.Err? then Some(r.error) else None
  }

  /** What each of the eleven checked fields has to say against itself, in the order they are read. */
  function Objections<F, C, E>(catalog: Catalog<F, C, E>, fields: seq<string>): (r: seq<Option<Error<E>>>)
    requires |fields| == 16
  {
    [Refusal(FromCatalog(catalog.parseFamily(fields[0]))),
     Refusal(FromCatalog(catalog.parseCenter(fields[1]))),
     Refusal(ParsePublisher<E>(fields[2])),
     Refusal(ParseSolution<E>(fields[3])),
     Refusal(ParseCampaign<E>(fields[4])),
     Refusal(ParseU8<E>(fields[5], "filename_version")),
     Refusal(ParseI32<E>(fields[6], "date")),
     Refusal(ParseU8<E>(fields[7], "date")),
     Refusal(ParseU8<E>(fields[8], "date")),
     Refusal(ParseFormat<E>(fields[13])),
     Refusal(ParseHorizon<E>(fields[15]))]
  }

  predicate NoObjections<F, C, E>(catalog: Catalog<F, C, E>, fields: seq<string>, k: nat)
    requires |fields| == 16 && k <= 11
  {
    forall j :: 0 <= j < k ==> Objections(catalog, fields)[j].None?
  }

  lemma {:induction false} FirstBadName<F, C, E>(catalog: Catalog<F, C, E>, fields: seq<string>, k: nat)
    requires |fields| == 16 && k <= 11 && NoObjections(catalog, fields, k)
    ensures k < 5 && Objections(catalog, fields)[k].Some? ==>
              ParseNames(catalog, fields) == Err(Objections(catalog, fields)[k].value)
    ensures k >= 5 ==> ParseNames(catalog, fields).Ok?
  {
    var o := Objections(catalog, fields);
    assert k > 0 ==> o[0].None?;
    assert k > 1 ==> o[1].None?;
    assert k > 2 ==> o[2].None?;
    assert k > 3 ==> o[3].None?;
    assert k > 4 ==> o[4].None?;
  }

  lemma {:induction false} FirstBadNumber<F, C, E>(catalog: Catalog<F, C, E>, fields: seq<string>, k: nat)
    requires |fields| == 16 && 5 <= k <= 11 && NoObjections(catalog, fields, k)
    ensures k < 9 && Objections(catalog, fields)[k].Some? ==>
              ParseNumbers(fields) == Err(Objections(catalog, fields)[k].value)
    ensures k >= 9 ==> ParseNumbers<E>(fields).Ok?
  {
    var o := Objections(catalog, fields);
    assert k > 5 ==> o[5].None?;
    assert k > 6 ==> o[6].None?;
    assert k > 7 ==> o[7].None?;
    assert k > 8 ==> o[8].None?;
  }

  /** A refused list of sixteen fields is refused for its first bad field; if no
      field is bad, it is the catalog that refused. */
  lemma {:induction false} FirstBadField<F, C, E>(catalog: Catalog<F, C, E>, fields: seq<string>, k: nat)
    requires |fields| == 16 && k <= 11 && NoObjections(catalog, fields, k)
    ensures k < 11 && Objections(catalog, fields)[k].Some? ==>
              Parse(catalog, fields) == Err(Objections(catalog, fields)[k].value)
    ensures k == 11 && Parse(catalog, fields).Err? ==> Parse(catalog, fields).error.CatalogError?
  {
    var o := Objections(catalog, fields);
    FirstBadName(catalog, fields, k);
    if k >= 5 { FirstBadNumber(catalog, fields, k); }
    assert k > 9 ==> o[9].None?;
    assert k > 10 ==> o[10].None?;
  }

  /** Sixteen fields say `id`: each part of it is in its own field. (`CodesAreForced`
      spells out the codes.) */
  ghost predicate Says<F, C, E>(catalog: Catalog<F, C, E>, fields: seq<string>, id: Identity<F, C>) {
    && |fields| == 16
    && catalog.parseFamily(fields[0]) == Ok(id.family) && catalog.parseCenter(fields[1]) == Ok(id.center)
    && ParsePublisher<E>(fields[2]) == Ok(id.publisher) && ParseSolution<E>(fields[3]) == Ok(id.solution)
    && ParseCampaign<E>(fields[4]) == Ok(id.campaign) && ParseFormat<E>(fields[13]) == Ok(id.format)
    && ParseUnsigned(fields[5], 255) == Some(id.version)
    && ParseSigned(fields[6], -0x8000_0000, 0x7FFF_FFFF) == Some(id.year)
    && ParseUnsigned(fields[7], 255) == Some(id.month) && ParseUnsigned(fields[8], 255) == Some(id.day)
    && id.issue == (if fields[9] == "" then None else Some(fields[9]))
    && id.span == fields[10] && id.sample == fields[11] && id.filename == fields[12]
    && id.formatVersion == (if fields[14] == "" then None else Some(fields[14]))
    && (if fields[15] == "" then id.horizonDays == None
        else id.horizonDays.Some? && ParseUnsigned(fields[15], 255) == Some(id.horizonDays.value))
  }

  /** Fields are accepted as what they say and nothing else. */
  lemma {:induction false} AcceptedIsSaid<F, C, E>(catalog: Catalog<F, C, E>, fields: seq<string>)
    requires Parse(catalog, fields).Ok?
    ensures Says(catalog, fields, Parse(catalog, fields).value)
  {
  }

  /** What fields say is judged by the catalog alone: the date first, then the whole
      identity. A list of another length says nothing. */
  lemma {:induction false} CatalogHasTheLastWord<F, C, E>(
    catalog: Catalog<F, C, E>, fields: seq<string>, id: Identity<F, C>)
    ensures |fields| != 16 ==> Parse(catalog, fields) == Err(Inconsistent("field_count"))
    ensures Says(catalog, fields, id) ==>
              Parse(catalog, fields) ==
              match catalog.checkDate(id.year, id.month, id.day)
              case Some(e) => Err(CatalogError(e))
              case None =>
                match catalog.validate(id)
                case Some(e) => Err(CatalogError(e))
                case None => Ok(id)
  {
  }

  /** How an identity is printed: each part in its own field, what is absent as an
      empty text. */
  lemma {:induction false} PrintedInPlace<F, C, E>(catalog: Catalog<F, C, E>, id: Identity<F, C>)
    ensures var f := Fields(catalog, id);
            && f[0] == catalog.familyCode(id.family) && f[1] == catalog.centerCode(id.center)
            && f[2] == catalog.publisherCode(id.publisher) && f[3] == catalog.solutionCode(id.solution)
            && f[4] == catalog.campaignCode(id.campaign) && f[13] == catalog.formatCode(id.format)
            && f[9] == (if id.issue == None then "" else id.issue.value)
            && f[10] == id.span && f[11] == id.sample && f[12] == id.filename
            && f[14] == (if id.formatVersion == None then "" else id.formatVersion.value)
  {
  }

  /** Numbers are printed as the one decimal numeral without a leading zero or a plus sign. */
  lemma {:induction false} NumbersInPlace<F, C, E>(catalog: Catalog<F, C, E>, id: Identity<F, C>)
    ensures IsNumeral(Fields(catalog, id)[5], id.version)
    ensures IsSignedNumeral(Fields(catalog, id)[6], id.year)
    ensures IsNumeral(Fields(catalog, id)[7], id.month) && IsNumeral(Fields(catalog, id)[8], id.day)
    ensures if id.horizonDays == None then Fields(catalog, id)[15] == ""
            else IsNumeral(Fields(catalog, id)[15], id.horizonDays.value)
  {
    PrintIsNumeral(id.version);
    PrintSignedIsNumeral(id.year);
    PrintIsNumeral(id.month);
    PrintIsNumeral(id.day);
    if id.horizonDays.Some? { PrintIsNumeral(id.horizonDays.value); }
  }

  /** The name under which each field is refused. */
  lemma {:induction false} RefusalNames<E>(text: string)
    ensures ParsePublisher<E>(text).Err? ==> ParsePublisher<E>(text) == Err(Inconsistent("publisher"))
    ensures ParseSolution<E>(text).Err? ==> ParseSolution<E>(text) == Err(Inconsistent("solution_class"))
    ensures ParseCampaign<E>(text).Err? ==> ParseCampaign<E>(text) == Err(Inconsistent("campaign"))
    ensures ParseFormat<E>(text).Err? ==> ParseFormat<E>(text) == Err(Inconsistent("format"))
    ensures ParseHorizon<E>(text).Err? ==> ParseHorizon<E>(text) == Err(Inconsistent("prediction_horizon_days"))
  {
  }

  // ---------------------------------------------------------------------
  // Round trips
  // ---------------------------------------------------------------------

  predicate Valid<F, C, E>(catalog: Catalog<F, C, E>, id: Identity<F, C>) {
    catalog.checkDate(id.year, id.month, id.day).None? && catalog.validate(id).None?
  }

  /** No optional text is present but empty. */
  predicate Canonical<F, C>(id: Identity<F, C>) {
    id.issue != Some("") && id.formatVersion != Some("")
  }

  /** What the sixteen fields can say of an identity: an empty text is no text. */
  function Told<F, C>(id: Identity<F, C>): Identity<F, C> {
    id.(issue := Present(OrEmpty(id.issue)), formatVersion := Present(OrEmpty(id.formatVersion)))
  }

  /** Each list reads one code for each name, so this is what the catalog's codes have to be. */
  lemma {:induction false} CodesAreForced<E>(text: string, p: Publisher, s: Solution, c: Campaign, f: Format)
    ensures ParsePublisher<E>(text) == Ok(p) <==> text == PublisherCode(p)
    ensures ParseSolution<E>(text) == Ok(s) <==> text == SolutionCode(s)
    ensures ParseCampaign<E>(text) == Ok(c) <==> text == CampaignCode(c)
    ensures ParseFormat<E>(text) == Ok(f) <==> text == FormatCode(f)
  {
  }

  lemma {:induction false} NamesReadBack<F(!new), C(!new), E(!new)>(catalog: Catalog<F, C, E>, id: Identity<F, C>)
    requires CodesParse(catalog)
    ensures ParseNames(catalog, Fields(catalog, id)) ==
            Ok((id.family, id.center, id.publisher, id.solution, id.campaign))
    ensures ParseFormat<E>(Fields(catalog, id)[13]) == Ok(id.format)
  {
  }

  lemma {:induction false} U8ReadsBack<E>(n: U8, field: string)
    ensures ParseU8<E>(Print(n), field) == Ok(n)
  {
    PrintParses(n, 255);
  }

  lemma {:induction false} I32ReadsBack<E>(n: I32, field: string)
    ensures ParseI32<E>(PrintSigned(n), field) == Ok(n)
  {
    PrintSignedParses(n, -0x8000_0000, 0x7FFF_FFFF);
  }

  lemma {:induction false} HorizonReadsBack<E>(days: Option<U8>)
    ensures ParseHorizon<E>(PrintHorizon(days)) == Ok(days)
  {
    if days.Some? { U8ReadsBack<E>(days.value, "prediction_horizon_days"); }
  }

  lemma {:induction false} NumbersReadBack<E>(fields: seq<string>, version: U8, year: I32, month: U8, day: U8)
    requires |fields| == 16
    requires fields[5] == Print(version) && fields[6] == PrintSigned(year)
    requires fields[7] == Print(month) && fields[8] == Print(day)
    ensures ParseNumbers<E>(fields) == Ok((version, year, month, day))
  {
    U8ReadsBack<E>(version, "filename_version");
    I32ReadsBack<E>(year, "date");
    U8ReadsBack<E>(month, "date");
    U8ReadsBack<E>(day, "date");
  }

  /** Reading printed fields gives what the fields can say, checked by the catalog. */
  lemma {:induction false} ParsePrinted<F(!new), C(!new), E(!new)>(catalog: Catalog<F, C, E>, id: Identity<F, C>)
    requires CodesParse(catalog)
    ensures Parse(catalog, Fields(catalog, id)) == Checked(catalog, Told(id))
  {
    NamesReadBack(catalog, id);
    NumbersReadBack<E>(Fields(catalog, id), id.version, id.year, id.month, id.day);
    HorizonReadsBack<E>(id.horizonDays);
  }

  /** A valid identity survives the sixteen fields exactly when none of its
      optional texts is an empty string. */
  lemma {:induction false} RoundTrip<F(!new), C(!new), E(!new)>(catalog: Catalog<F, C, E>, id: Identity<F, C>)
    requires CodesParse(catalog) && Valid(catalog, id)
    ensures Parse(catalog, Fields(catalog, id)) == Ok(id) <==> Canonical(id)
  {
    ParsePrinted(catalog, id);
    assert Told(id) == id <==> Canonical(id);
  }

  /** An issue or a format version that is there but empty comes back as none at all,
      because both are printed alike. */
  lemma {:induction false} EmptyTextIsLost<F(!new), C(!new), E(!new)>(catalog: Catalog<F, C, E>, id: Identity<F, C>)
    requires CodesParse(catalog)
    ensures var blank := id.(issue := Some(""));
            && Fields(catalog, blank) == Fields(catalog, id.(issue := None))
            && Parse(catalog, Fields(catalog, blank)) != Ok(blank)
    ensures var blank := id.(formatVersion := Some(""));
            && Fields(catalog, blank) == Fields(catalog, id.(formatVersion := None))
            && Parse(catalog, Fields(catalog, blank)) != Ok(blank)
  {
    ParsePrinted(catalog, id.(issue := Some("")));
    ParsePrinted(catalog, id.(formatVersion := Some("")));
  }

  lemma {:induction false} AcceptedIsValid<F, C, E>(catalog: Catalog<F, C, E>, fields: seq<string>)
    requires Parse(catalog, fields).Ok?
    ensures Valid(catalog, Parse(catalog, fields).value) && Canonical(Parse(catalog, fields).value)
  {
  }

  /** Every accepted identity is valid and of that kind, so it reads back as itself
      from its own fields, however its numerals and codes were first spelled. */
  lemma {:induction false} AcceptedIsCanonical<F(!new), C(!new), E(!new)>(
    catalog: Catalog<F, C, E>, fields: seq<string>)
    requires CodesParse(catalog)
    ensures match Parse(catalog, fields)
            case Ok(id) => Valid(catalog, id) && Canonical(id) && Parse(catalog, Fields(catalog, id)) == Ok(id)
            case Err(_) => true
  {
    if Parse(catalog, fields).Ok? {
      AcceptedIsValid(catalog, fields);
      RoundTrip(catalog, Parse(catalog, fields).value);
    }
  }

  /** Print after parse (`data_validate_product_identity_catalog_details`). */
  function Normalized<F, C, E>(catalog: Catalog<F, C, E>, fields: seq<string>): Result<seq<string>, Error<E>> {
    var id :- Parse(catalog, fields);
    Ok(Fields(catalog, id))
  }

  lemma {:induction false} NormalizedIsIdempotent<F(!new), C(!new), E(!new)>(
    catalog: Catalog<F, C, E>, fields: seq<string>)
    requires CodesParse(catalog)
    ensures match Normalized(catalog, fields)
            case Ok(normal) => Normalized(catalog, normal) == Ok(normal)
            case Err(_) => true
  {
    AcceptedIsCanonical(catalog, fields);
  }

  /** Two canonical valid identities with the same fields are the same identity. */
  lemma {:induction false} FieldsIdentify<F(!new), C(!new), E(!new)>(
    catalog: Catalog<F, C, E>, a: Identity<F, C>, b: Identity<F, C>)
    requires CodesParse(catalog) && Valid(catalog, a) && Valid(catalog, b) && Canonical(a) && Canonical(b)
    ensures Fields(catalog, a) == Fields(catalog, b) <==> a == b
  {
    RoundTrip(catalog, a);
    RoundTrip(catalog, b);
  }
}
