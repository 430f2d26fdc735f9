/**
  Catalog errors as maps (`catalog_error_projection`, `catalog_atom` and
  `catalog_projection_term` in native/sidereon_nif/src/data.rs).

  Centers, product types and distribution sources are the core's; what matters
  here is that their codes can be read back, which `Codes` states. The message is
  the core's text for the error.
*/
module CatalogErrors {
  import opened Wrappers
  import opened Numerals

  type U8 = n: nat | n < 256
  type I32 = n: int | -0x8000_0000 <= n < 0x8000_0000
  type U64 = n: nat | n < 0x1_0000_0000_0000_0000

  datatype Date = Date(year: I32, month: U8, day: U8)

  datatype Error<C, P, S> =
    | UnknownCenter(value: string)
    | UnknownProductType(value: string)
    | UnsupportedProduct(center: C, productType: P)
    | UnsupportedDistribution(source: S, productType: P)
    | UnsupportedProductEra(center: C, productType: P, date: Date)
    | UnsupportedDistributionEra(source: S, center: C, productType: P, date: Date)
    | NoDistributionSources
    | InvalidOfficialFilename(value: string)
    | InconsistentProductIdentity(field: string)
    | NoOpenMirror(centerText: string, productTypeText: string)
    | InvalidDate(year: I32, month: U8, day: U8)
    | DateOutOfRange
    | DateBeforeGpsEpoch(date: Date)
    | InvalidGpsDayOfWeek(gpsDay: U8)
    | InvalidSample(value: string)
    | UnsupportedSample(center: C, productType: P, sample: string)
    | InvalidSpan(value: string)
    | InvalidIssue(value: string)
    | MissingIssue(center: C)
    | UnexpectedIssue(center: C)
    | UnsupportedIssue(center: C, issue: string)
    | InvalidDateTime(hour: U8, minute: U8, second: U8)
    | NoUltraIssue
    | NoAvailableUltraIssue
    | UnsupportedNominalSchedule(center: C, productType: P)
    | UnrecognizedArchiveListing(reason: string)
    | InvalidStation(value: string)
    | InvalidCoordinate(latDegBits: U64, lonDegBits: U64)
    | InvalidTileIndex(latIndex: I32, lonIndex: I32)
    | InvalidTileId(value: string)

  datatype Codes<!C, !P, !S> = Codes(
    center: C -> string, centerOf: string -> C,
    productType: P -> string, productTypeOf: string -> P,
    source: S -> string, sourceOf: string -> S)

  ghost predicate Readable<C(!new), P(!new), S(!new)>(codes: Codes<C, P, S>) {
    && (forall c :: codes.centerOf(codes.center(c)) == c)
    && (forall p :: codes.productTypeOf(codes.productType(p)) == p)
    && (forall s :: codes.sourceOf(codes.source(s)) == s)
  }

  // ---------------------------------------------------------------------
  // Fixed-width hexadecimal
  // ---------------------------------------------------------------------

  const HEX: string := "0123456789abcdef"

  function HexValue(c: char): nat {
    if '0' <= c <= '9' then (c - '0') as nat else if 'a' <= c <= 'f' then 10 + (c - 'a') as nat else 0
  }

  /** The low `width` hexadecimal digits, leading zeros kept (`{:016x}` at width 16). */
  function Hex(n: nat, width: nat): (s: string)
    ensures |s| == width
  {
    if width == 0 then "" else Hex(n / 16, width - 1) + [HEX[n % 16]]
  }

  function Unhex(s: string): nat {
    if s == "" then 0 else Unhex(s[..|s| - 1]) * 16 + HexValue(s[|s| - 1])
  }

  lemma {:induction false} HexDigit(d: nat)
    requires d < 16
    ensures HexValue(HEX[d]) == d
  {
  }

  /** A number below 16^width is determined by its `width` digits. */
  lemma {:induction false} HexReadsBack(n: nat, width: nat)
    requires n < Pow(16, width)
    ensures Unhex(Hex(n, width)) == n
  {
    if width > 0 {
      var q, d := n / 16, n % 16;
      BelowSixteenth(n, Pow(16, width - 1));
      HexReadsBack(q, width - 1);
      HexPush(q, d, width - 1);
      HexDigit(d);
      assert n == q * 16 + d;
    }
  }

  lemma {:induction false} BelowSixteenth(n: nat, p: nat)
    requires n < 16 * p
    ensures n / 16 < p
  {
  }

  lemma {:induction false} HexPush(q: nat, d: nat, width: nat)
    requires d < 16
    ensures Unhex(Hex(q, width) + [HEX[d]]) == Unhex(Hex(q, width)) * 16 + HexValue(HEX[d])
  {
    assert (Hex(q, width) + [HEX[d]])[..width] == Hex(q, width);
  }

  lemma {:induction false} SixteenDigits(n: U64)
    ensures Unhex(Hex(n, 16)) == n
  {
    PowSum(16, 2, 2);
    PowSum(16, 4, 4);
    PowSum(16, 8, 8);
    HexReadsBack(n, 16);
  }

  // ---------------------------------------------------------------------
  // Projection
  // ---------------------------------------------------------------------

  datatype Value = Text(text: string) | Int32(i: I32) | Byte(u: U8) | Day(date: Date)

  function KindOf<C, P, S>(e: Error<C, P, S>): string {
    match e
    case UnknownCenter(_) => "unknown_center"
    case UnknownProductType(_) => "unknown_product_type"
    case UnsupportedProduct(_, _) => "unsupported_product"
    case UnsupportedDistribution(_, _) => "unsupported_distribution"
    case UnsupportedProductEra(_, _, _) => "unsupported_product_era"
    case UnsupportedDistributionEra(_, _, _, _) => "unsupported_distribution_era"
    case NoDistributionSources => "no_distribution_sources"
    case InvalidOfficialFilename(_) => "invalid_official_filename"
    case InconsistentProductIdentity(_) => "inconsistent_product_identity"
    case NoOpenMirror(_, _) => "no_open_mirror"
    case InvalidDate(_, _, _) => "invalid_date"
    case DateOutOfRange => "date_out_of_range"
    case DateBeforeGpsEpoch(_) => "date_before_gps_epoch"
    case InvalidGpsDayOfWeek(_) => "invalid_gps_day_of_week"
    case InvalidSample(_) => "invalid_sample"
    case UnsupportedSample(_, _, _) => "unsupported_sample"
    case InvalidSpan(_) => "invalid_span"
    case InvalidIssue(_) => "invalid_issue"
    case MissingIssue(_) => "missing_issue"
    case UnexpectedIssue(_) => "unexpected_issue"
    case UnsupportedIssue(_, _) => "unsupported_issue"
    case InvalidDateTime(_, _, _) => "invalid_date_time"
    case NoUltraIssue => "no_ultra_issue"
    case NoAvailableUltraIssue => "no_available_ultra_issue"
    case UnsupportedNominalSchedule(_, _) => "unsupported_nominal_schedule"
    case UnrecognizedArchiveListing(_) => "unrecognized_archive_listing"
    case InvalidStation(_) => "invalid_station"
    case InvalidCoordinate(_, _) => "invalid_coordinate"
    case InvalidTileIndex(_, _) => "invalid_tile_index"
    case InvalidTileId(_) => "invalid_tile_id"
  }

  /** The fields of an error, in the order the projection lists them. */
  function FieldsOf<C, P, S>(codes: Codes<C, P, S>, e: Error<C, P, S>): (fields: seq<(string, Value)>)
    ensures |fields| <= 4
  {
    match e
    case UnknownCenter(v) => [("value", Text(v))]
    case UnknownProductType(v) => [("value", Text(v))]
    case UnsupportedProduct(c, p) =>
      [("center", Text(codes.center(c))),
       ("product_type", Text(codes.productType(p)))]
    case UnsupportedDistribution(s, p) =>
      [("source", Text(codes.source(s))),
       ("product_type", Text(codes.productType(p)))]
    case UnsupportedProductEra(c, p, d) =>
      [("center", Text(codes.center(c))),
       ("product_type", Text(codes.productType(p))),
       ("date", Day(d))]
    case UnsupportedDistributionEra(s, c, p, d) =>
      [("source", Text(codes.source(s))),
       ("center", Text(codes.center(c))),
       ("product_type", Text(codes.productType(p))),
       ("date", Day(d))]
    case NoDistributionSources => []
    case InvalidOfficialFilename(v) => [("value", Text(v))]
    case InconsistentProductIdentity(f) => [("field", Text(f))]
    case NoOpenMirror(c, p) => [("center", Text(c)), ("product_type", Text(p))]
    case InvalidDate(y, m, d) => [("year", Int32(y)), ("month", Byte(m)), ("day", Byte(d))]
    case DateOutOfRange => []
    case DateBeforeGpsEpoch(d) => [("date", Day(d))]
    case InvalidGpsDayOfWeek(d) => [("gps_day", Byte(d))]
    case InvalidSample(v) => [("value", Text(v))]
    case UnsupportedSample(c, p, v) =>
      [("center", Text(codes.center(c))),
       ("product_type", Text(codes.productType(p))),
       ("sample", Text(v))]
    case InvalidSpan(v) => [("value", Text(v))]
    case InvalidIssue(v) => [("value", Text(v))]
    case MissingIssue(c) => [("center", Text(codes.center(c)))]
    case UnexpectedIssue(c) => [("center", Text(codes.center(c)))]
    case UnsupportedIssue(c, i) => [("center", Text(codes.center(c))), ("issue", Text(i))]
    case InvalidDateTime(h, m, s) => [("hour", Byte(h)), ("minute", Byte(m)), ("second", Byte(s))]
    case NoUltraIssue => []
    case NoAvailableUltraIssue => []
    case UnsupportedNominalSchedule(c, p) =>
      [("center", Text(codes.center(c))),
       ("product_type", Text(codes.productType(p)))]
    case UnrecognizedArchiveListing(r) => [("reason", Text(r))]
    case InvalidStation(v) => [("value", Text(v))]
    case InvalidCoordinate(lat, lon) =>
      [("lat_deg_bits", Text(Hex(lat, 16))),
       ("lon_deg_bits", Text(Hex(lon, 16)))]
    case InvalidTileIndex(lat, lon) => [("lat_index", Int32(lat)), ("lon_index", Int32(lon))]
    case InvalidTileId(v) => [("value", Text(v))]
  }

  /** An atom is its text: `rustler::atoms!` interns each name as it is spelled. */
  datatype Atom = Atom(text: string)

  /** `catalog_atom`: the names the boundary can turn into atoms; on any other it panics. */
  function CatalogAtom(name: string): Option<Atom> {
    match name
    case "unknown_center" => Some(Atom("unknown_center"))
    case "unknown_product_type" => Some(Atom("unknown_product_type"))
    case "unsupported_product" => Some(Atom("unsupported_product"))
    case "unsupported_distribution" => Some(Atom("unsupported_distribution"))
    case "unsupported_product_era" => Some(Atom("unsupported_product_era"))
    case "unsupported_distribution_era" => Some(Atom("unsupported_distribution_era"))
    case "no_distribution_sources" => Some(Atom("no_distribution_sources"))
    case "invalid_official_filename" => Some(Atom("invalid_official_filename"))
    case "inconsistent_product_identity" => Some(Atom("inconsistent_product_identity"))
    case "no_open_mirror" => Some(Atom("no_open_mirror"))
    case "invalid_date" => Some(Atom("invalid_date"))
    case "date_out_of_range" => Some(Atom("date_out_of_range"))
    case "date_before_gps_epoch" => Some(Atom("date_before_gps_epoch"))
    case "invalid_gps_day_of_week" => Some(Atom("invalid_gps_day_of_week"))
    case "invalid_sample" => Some(Atom("invalid_sample"))
    case "unsupported_sample" => Some(Atom("unsupported_sample"))
    case "invalid_span" => Some(Atom("invalid_span"))
    case "invalid_issue" => Some(Atom("invalid_issue"))
    case "missing_issue" => Some(Atom("missing_issue"))
    case "unexpected_issue" => Some(Atom("unexpected_issue"))
    case "unsupported_issue" => Some(Atom("unsupported_issue"))
    case "invalid_date_time" => Some(Atom("invalid_date_time"))
    case "no_ultra_issue" => Some(Atom("no_ultra_issue"))
    case "no_available_ultra_issue" => Some(Atom("no_available_ultra_issue"))
    case "unsupported_nominal_schedule" => Some(Atom("unsupported_nominal_schedule"))
    case "unrecognized_archive_listing" => Some(Atom("unrecognized_archive_listing"))
    case "invalid_station" => Some(Atom("invalid_station"))
    case "invalid_coordinate" => Some(Atom("invalid_coordinate"))
    case "invalid_tile_index" => Some(Atom("invalid_tile_index"))
    case "invalid_tile_id" => Some(Atom("invalid_tile_id"))
    case "value" => Some(Atom("value"))
    case "center" => Some(Atom("center"))
    case "product_type" => Some(Atom("product_type"))
    case "source" => Some(Atom("source"))
    case "date" => Some(Atom("date"))
    case "field" => Some(Atom("field"))
    case "year" => Some(Atom("year"))
    case "month" => Some(Atom("month"))
    case "day" => Some(Atom("day"))
    case "gps_day" => Some(Atom("gps_day"))
    case "sample" => Some(Atom("sample"))
    case "issue" => Some(Atom("issue"))
    case "hour" => Some(Atom("hour"))
    case "minute" => Some(Atom("minute"))
    case "second" => Some(Atom("second"))
    case "reason" => Some(Atom("reason"))
    case "lat_deg_bits" => Some(Atom("lat_deg_bits"))
    case "lon_deg_bits" => Some(Atom("lon_deg_bits"))
    case "lat_index" => Some(Atom("lat_index"))
    case "lon_index" => Some(Atom("lon_index"))
    case _ => None
  }

  /** A name in the table gives the atom of that name. */
  lemma {:induction false} AtomOfName(name: string)
    ensures CatalogAtom(name).Some? ==> CatalogAtom(name).value == Atom(name)
  {
  }

  /** No two names share an atom, and the two keys every map has are not in the table. */
  lemma {:induction false} TableIsInjective(m: string, n: string)
    ensures CatalogAtom(m).Some? && CatalogAtom(m) == CatalogAtom(n) ==> m == n
    ensures CatalogAtom("kind").None? && CatalogAtom("message").None?
  {
    AtomOfName(m);
    AtomOfName(n);
  }

  /** Values as the boundary encodes them: both integer widths become integers. */
  datatype Term = Name(atom: Atom) | Binary(text: string) | Integer(n: int) | Triple(y: int, m: int, d: int)

  function ValueTerm(v: Value): Term {
    match v
    case Text(text) => Binary(text)
    case Int32(i) => Integer(i)
    case Byte(u) => Integer(u)
    case Day(d) => Triple(d.year, d.month, d.day)
  }

  type Keyed = map<Atom, Term>

  /** The map has the kind under `kind` and each field under its own name. */
  ghost predicate Carries(m: Keyed, kind: string, fields: seq<(string, Value)>) {
    && Atom("kind") in m && m[Atom("kind")] == Name(Atom(kind))
    && forall i :: 0 <= i < |fields| ==> Atom(fields[i].0) in m && m[Atom(fields[i].0)] == ValueTerm(fields[i].1)
  }

  predicate KnownNames(fields: seq<(string, Value)>) {
    forall i :: 0 <= i < |fields| ==> CatalogAtom(fields[i].0).Some?
  }

  predicate DistinctNames(fields: seq<(string, Value)>) {
    forall i, j :: 0 <= i < j < |fields| ==> fields[i].0 != fields[j].0
  }

  /** The errors that name a center, a product type or a source by its code. */
  predicate Coded<C, P, S>(e: Error<C, P, S>) {
    || e.UnsupportedProduct? || e.UnsupportedDistribution? || e.UnsupportedProductEra? || e.UnsupportedDistributionEra?
    || e.UnsupportedSample? || e.MissingIssue? || e.UnexpectedIssue? || e.UnsupportedIssue?
    || e.UnsupportedNominalSchedule?
  }

  /** The errors that carry one text as it stands. */
  predicate Worded<C, P, S>(e: Error<C, P, S>) {
    || e.UnknownCenter? || e.UnknownProductType? || e.InvalidOfficialFilename? || e.InconsistentProductIdentity?
    || e.InvalidSample? || e.InvalidSpan? || e.InvalidIssue? || e.UnrecognizedArchiveListing? || e.InvalidStation?
    || e.InvalidTileId?
  }

  lemma {:induction false} CodedKinds<C, P, S>(e: Error<C, P, S>)
    requires Coded(e)
    ensures CatalogAtom(KindOf(e)).Some?
  {
  }

  lemma {:induction false} WordedKinds<C, P, S>(e: Error<C, P, S>)
    requires Worded(e)
    ensures CatalogAtom(KindOf(e)).Some?
  {
  }

  lemma {:induction false} OtherKinds<C, P, S>(e: Error<C, P, S>)
    requires !Coded(e) && !Worded(e)
    ensures CatalogAtom(KindOf(e)).Some?
  {
  }

  lemma {:induction false} PlaceNames()
    ensures CatalogAtom("value") == Some(Atom("value"))
    ensures CatalogAtom("center") == Some(Atom("center"))
    ensures CatalogAtom("product_type") == Some(Atom("product_type"))
    ensures CatalogAtom("source") == Some(Atom("source"))
    ensures CatalogAtom("date") == Some(Atom("date"))
  {
  }

  lemma {:induction false} DateNames()
    ensures CatalogAtom("field") == Some(Atom("field"))
    ensures CatalogAtom("year") == Some(Atom("year"))
    ensures CatalogAtom("month") == Some(Atom("month"))
    ensures CatalogAtom("day") == Some(Atom("day"))
    ensures CatalogAtom("gps_day") == Some(Atom("gps_day"))
  {
  }

  lemma {:induction false} TimeNames()
    ensures CatalogAtom("sample") == Some(Atom("sample"))
    ensures CatalogAtom("issue") == Some(Atom("issue"))
    ensures CatalogAtom("hour") == Some(Atom("hour"))
    ensures CatalogAtom("minute") == Some(Atom("minute"))
    ensures CatalogAtom("second") == Some(Atom("second"))
  {
  }

  lemma {:induction false} TileNames()
    ensures CatalogAtom("reason") == Some(Atom("reason"))
    ensures CatalogAtom("lat_deg_bits") == Some(Atom("lat_deg_bits"))
    ensures CatalogAtom("lon_deg_bits") == Some(Atom("lon_deg_bits"))
    ensures CatalogAtom("lat_index") == Some(Atom("lat_index"))
    ensures CatalogAtom("lon_index") == Some(Atom("lon_index"))
  {
  }

  lemma {:induction false} CodedNames<C, P, S>(codes: Codes<C, P, S>, e: Error<C, P, S>)
    requires Coded(e)
    ensures KnownNames(FieldsOf(codes, e))
  {
    PlaceNames();
    TimeNames();
  }

  lemma {:induction false} PlainNames<C, P, S>(codes: Codes<C, P, S>, e: Error<C, P, S>)
    requires !Coded(e)
    ensures KnownNames(FieldsOf(codes, e))
  {
    PlaceNames();
    DateNames();
    TimeNames();
    TileNames();
  }

  lemma {:induction false} NamesDiffer<C, P, S>(codes: Codes<C, P, S>, e: Error<C, P, S>)
    ensures DistinctNames(FieldsOf(codes, e))
  {
  }

  /** Every projected name is known to `catalog_atom`, and no two fields share one. */
  lemma {:induction false} NamesAreKnown<C, P, S>(codes: Codes<C, P, S>, e: Error<C, P, S>)
    ensures CatalogAtom(KindOf(e)).Some?
    ensures KnownNames(FieldsOf(codes, e)) && DistinctNames(FieldsOf(codes, e))
  {
    if Coded(e) { CodedKinds(e); } else if Worded(e) { WordedKinds(e); } else { OtherKinds(e); }
    if Coded(e) { CodedNames(codes, e); } else { PlainNames(codes, e); }
    NamesDiffer(codes, e);
  }

  /** The map holds the kind, the message and these fields, and nothing else. */
  ghost predicate Built(m: Keyed, kind: string, text: string, fields: seq<(string, Value)>) {
    && Carries(m, kind, fields)
    && Atom("message") in m && m[Atom("message")] == Binary(text)
    && (forall key :: key in m ==>
          || key == Atom("kind") || key == Atom("message")
          || exists j :: 0 <= j < |fields| && key == Atom(fields[j].0))
    && |m| == 2 + |fields|
  }

  lemma {:induction false} TwoEntries(kind: string, text: string)
    ensures Built(map[Atom("kind") := Name(Atom(kind)), Atom("message") := Binary(text)], kind, text, [])
  {
    var m: Keyed := map[Atom("kind") := Name(Atom(kind))];
    assert Atom("message") !in m && |m| == 1;
    assert map[Atom("kind") := Name(Atom(kind)), Atom("message") := Binary(text)] == m[Atom("message") := Binary(text)];
  }

  /** A put under a new name adds its own entry and keeps all others. */
  lemma {:induction false} PutAdds(
    m: Keyed, kind: string, text: string, fields: seq<(string, Value)>, name: string, v: Value)
    requires Built(m, kind, text, fields) && name != "kind" && name != "message"
    requires forall j :: 0 <= j < |fields| ==> fields[j].0 != name
    ensures Built(m[Atom(name) := ValueTerm(v)], kind, text, fields + [(name, v)])
  {
    var longer := fields + [(name, v)];
    assert forall j :: 0 <= j < |fields| ==> longer[j] == fields[j];
    assert longer[|fields|] == (name, v);
    assert Atom(name) !in m;
  }

  lemma {:induction false} PutNext(m: Keyed, kind: string, text: string, fields: seq<(string, Value)>, i: nat)
    requires i < |fields| && DistinctNames(fields) && Built(m, kind, text, fields[..i])
    requires fields[i].0 != "kind" && fields[i].0 != "message"
    ensures Built(m[Atom(fields[i].0) := ValueTerm(fields[i].1)], kind, text, fields[..i + 1])
  {
    assert fields[..i + 1] == fields[..i] + [fields[i]];
    assert forall j :: 0 <= j < i ==> fields[..i][j].0 != fields[i].0;
    PutAdds(m, kind, text, fields[..i], fields[i].0, fields[i].1);
  }

  /** A table that gives each name it knows the atom of that name, and does not know
      the two keys every map has. */
  ghost predicate NamesAtoms(table: string -> Option<Atom>) {
    && (forall name :: table(name).Some? ==> table(name).value == Atom(name))
    && table("kind").None? && table("message").None?
  }

  lemma {:induction false} CatalogNamesAtoms()
    ensures NamesAtoms(CatalogAtom)
  {
    TableIsInjective("kind", "message");
    forall name: string
      ensures CatalogAtom(name).Some? ==> CatalogAtom(name).value == Atom(name)
    {
      AtomOfName(name);
    }
  }

  /** One put after another; `None` is the panic on a name the table does not know. */
  method PutAll(table: string -> Option<Atom>, kind: string, text: string, fields: seq<(string, Value)>)
    returns (r: Option<Keyed>)
    requires NamesAtoms(table)
    ensures r.Some? <==> table(kind).Some? && forall i :: 0 <= i < |fields| ==> table(fields[i].0).Some?
    ensures r.Some? && DistinctNames(fields) ==> Built(r.value, kind, text, fields)
  {
    var name := table(kind);
    if name.None? { return None; }
    var m: Keyed := map[Atom("kind") := Name(name.value)];
    m := m[Atom("message") := Binary(text)];
    TwoEntries(kind, text);
    for i := 0 to |fields|
      invariant forall j :: 0 <= j < i ==> table(fields[j].0).Some?
      invariant DistinctNames(fields) ==> Built(m, kind, text, fields[..i])
    {
      var key := table(fields[i].0);
      if key.None? { return None; }
      if DistinctNames(fields) { PutNext(m, kind, text, fields, i); }
      m := m[key.value := ValueTerm(fields[i].1)];
    }
    assert fields[..|fields|] == fields;
    return Some(m);
  }

  /** `catalog_projection_term`. Where names differ no put overwrites another, so the
      map has one entry per name; it panics exactly on a name outside the table. */
  method ProjectionTerm(kind: string, text: string, fields: seq<(string, Value)>) returns (r: Option<Keyed>)
    ensures r.Some? <==> CatalogAtom(kind).Some? && KnownNames(fields)
    ensures r.Some? && DistinctNames(fields) ==> Built(r.value, kind, text, fields)
  {
    CatalogNamesAtoms();
    r := PutAll(CatalogAtom, kind, text, fields);
  }

  // ---------------------------------------------------------------------
  // The left inverse
  // ---------------------------------------------------------------------

  function TextAt(m: Keyed, name: Atom): string {
    if name in m && m[name].Binary? then m[name].text else ""
  }

  function I32At(m: Keyed, name: Atom): I32 {
    if name in m && m[name].Integer? && -0x8000_0000 <= m[name].n < 0x8000_0000 then m[name].n else 0
  }

  function U8At(m: Keyed, name: Atom): U8 {
    if name in m && m[name].Integer? && 0 <= m[name].n < 256 then m[name].n else 0
  }

  function U64At(m: Keyed, name: Atom): U64 {
    var n := Unhex(TextAt(m, name));
    if n < 0x1_0000_0000_0000_0000 then n else 0
  }

  function DateAt(m: Keyed, name: Atom): Date {
    if name in m && m[name].Triple? && -0x8000_0000 <= m[name].y < 0x8000_0000
       && 0 <= m[name].m < 256 && 0 <= m[name].d < 256
    then Date(m[name].y, m[name].m, m[name].d) else Date(0, 0, 0)
  }

  /** The errors that name things by code, read back from the fields of a map. */
  function RestoreCoded<C, P, S>(codes: Codes<C, P, S>, kind: string, m: Keyed): Option<Error<C, P, S>> {
    var center := codes.centerOf(TextAt(m, Atom("center")));
    var product := codes.productTypeOf(TextAt(m, Atom("product_type")));
    var source := codes.sourceOf(TextAt(m, Atom("source")));
    var date := DateAt(m, Atom("date"));
    match kind
    case "unsupported_product" => Some(UnsupportedProduct(center, product))
    case "unsupported_distribution" => Some(UnsupportedDistribution(source, product))
    case "unsupported_product_era" => Some(UnsupportedProductEra(center, product, date))
    case "unsupported_distribution_era" => Some(UnsupportedDistributionEra(source, center, product, date))
    case "unsupported_sample" => Some(UnsupportedSample(center, product, TextAt(m, Atom("sample"))))
    case "missing_issue" => Some(MissingIssue(center))
    case "unexpected_issue" => Some(UnexpectedIssue(center))
    case "unsupported_issue" => Some(UnsupportedIssue(center, TextAt(m, Atom("issue"))))
    case "unsupported_nominal_schedule" => Some(UnsupportedNominalSchedule(center, product))
    case _ => None
  }

  /** The errors that carry one text. */
  function RestoreWorded<C, P, S>(kind: string, m: Keyed): Option<Error<C, P, S>> {
    var value := TextAt(m, Atom("value"));
    match kind
    case "unknown_center" => Some(UnknownCenter(value))
    case "unknown_product_type" => Some(UnknownProductType(value))
    case "invalid_official_filename" => Some(InvalidOfficialFilename(value))
    case "inconsistent_product_identity" => Some(InconsistentProductIdentity(TextAt(m, Atom("field"))))
    case "invalid_sample" => Some(InvalidSample(value))
    case "invalid_span" => Some(InvalidSpan(value))
    case "invalid_issue" => Some(InvalidIssue(value))
    case "unrecognized_archive_listing" => Some(UnrecognizedArchiveListing(TextAt(m, Atom("reason"))))
    case "invalid_station" => Some(InvalidStation(value))
    case "invalid_tile_id" => Some(InvalidTileId(value))
    case _ => None
  }

  /** The errors that carry numbers, or nothing. */
  function RestoreOther<C, P, S>(kind: string, m: Keyed): Option<Error<C, P, S>> {
    match kind
    case "no_distribution_sources" => Some(NoDistributionSources)
    case "no_open_mirror" => Some(NoOpenMirror(TextAt(m, Atom("center")), TextAt(m, Atom("product_type"))))
    case "invalid_date" => Some(InvalidDate(I32At(m, Atom("year")), U8At(m, Atom("month")), U8At(m, Atom("day"))))
    case "date_out_of_range" => Some(DateOutOfRange)
    case "date_before_gps_epoch" => Some(DateBeforeGpsEpoch(DateAt(m, Atom("date"))))
    case "invalid_gps_day_of_week" => Some(InvalidGpsDayOfWeek(U8At(m, Atom("gps_day"))))
    case "invalid_date_time" =>
      Some(InvalidDateTime(U8At(m, Atom("hour")), U8At(m, Atom("minute")), U8At(m, Atom("second"))))
    case "no_ultra_issue" => Some(NoUltraIssue)
    case "no_available_ultra_issue" => Some(NoAvailableUltraIssue)
    case "invalid_coordinate" =>
      Some(InvalidCoordinate(U64At(m, Atom("lat_deg_bits")), U64At(m, Atom("lon_deg_bits"))))
    case "invalid_tile_index" => Some(InvalidTileIndex(I32At(m, Atom("lat_index")), I32At(m, Atom("lon_index"))))
    case _ => None
  }

  function Either<T>(first: Option<T>, second: Option<T>): Option<T> {
    if first.Some? then first else second
  }

  /** Reads an error back from its map. */
  function Recover<C, P, S>(codes: Codes<C, P, S>, m: Keyed): Option<Error<C, P, S>> {
    if Atom("kind") !in m || !m[Atom("kind")].Name? then None
    else
      var kind := m[Atom("kind")].atom.text;
      Either(RestoreCoded(codes, kind, m), Either(RestoreWorded(kind, m), RestoreOther(kind, m)))
  }

  predicate Dated<C, P, S>(e: Error<C, P, S>) {
    e.UnsupportedProductEra? || e.UnsupportedDistributionEra?
  }

  lemma {:induction false} DatedLossless<C(!new), P(!new), S(!new)>(codes: Codes<C, P, S>, e: Error<C, P, S>, m: Keyed)
    requires Readable(codes) && Dated(e) && Carries(m, KindOf(e), FieldsOf(codes, e))
    ensures RestoreCoded(codes, KindOf(e), m) == Some(e)
  {
    var f := FieldsOf(codes, e);
    assert m[Atom(f[0].0)] == ValueTerm(f[0].1) && m[Atom(f[1].0)] == ValueTerm(f[1].1);
    assert m[Atom(f[2].0)] == ValueTerm(f[2].1) && (|f| > 3 ==> m[Atom(f[3].0)] == ValueTerm(f[3].1));
  }

  predicate AboutIssue<C, P, S>(e: Error<C, P, S>) {
    e.MissingIssue? || e.UnexpectedIssue? || e.UnsupportedIssue?
  }

  lemma {:induction false} IssueLossless<C(!new), P(!new), S(!new)>(
    codes: Codes<C, P, S>, e: Error<C, P, S>, m: Keyed)
    requires Readable(codes) && AboutIssue(e) && Carries(m, KindOf(e), FieldsOf(codes, e))
    ensures RestoreCoded(codes, KindOf(e), m) == Some(e)
  {
    var f := FieldsOf(codes, e);
    assert m[Atom(f[0].0)] == ValueTerm(f[0].1);
    assert |f| > 1 ==> m[Atom(f[1].0)] == ValueTerm(f[1].1);
  }

  lemma {:induction false} CodedLossless<C(!new), P(!new), S(!new)>(
    codes: Codes<C, P, S>, e: Error<C, P, S>, m: Keyed)
    requires Readable(codes) && Coded(e) && !Dated(e) && !AboutIssue(e) && Carries(m, KindOf(e), FieldsOf(codes, e))
    ensures RestoreCoded(codes, KindOf(e), m) == Some(e)
  {
    var f := FieldsOf(codes, e);
    assert m[Atom(f[0].0)] == ValueTerm(f[0].1) && m[Atom(f[1].0)] == ValueTerm(f[1].1);
    assert |f| > 2 ==> m[Atom(f[2].0)] == ValueTerm(f[2].1);
  }

  /** The texts refused for their form. */
  predicate Malformed<C, P, S>(e: Error<C, P, S>) {
    e.InvalidSample? || e.InvalidSpan? || e.InvalidIssue? || e.InvalidStation? || e.InvalidTileId?
  }

  lemma {:induction false} MalformedKinds<C, P, S>(m: Keyed)
    ensures RestoreWorded<C, P, S>("invalid_sample", m) == Some(InvalidSample(TextAt(m, Atom("value"))))
    ensures RestoreWorded<C, P, S>("invalid_span", m) == Some(InvalidSpan(TextAt(m, Atom("value"))))
    ensures RestoreWorded<C, P, S>("invalid_issue", m) == Some(InvalidIssue(TextAt(m, Atom("value"))))
    ensures RestoreWorded<C, P, S>("invalid_station", m) == Some(InvalidStation(TextAt(m, Atom("value"))))
    ensures RestoreWorded<C, P, S>("invalid_tile_id", m) == Some(InvalidTileId(TextAt(m, Atom("value"))))
  {
  }

  lemma {:induction false} MalformedLossless<C, P, S>(codes: Codes<C, P, S>, e: Error<C, P, S>, m: Keyed)
    requires Malformed(e) && Carries(m, KindOf(e), FieldsOf(codes, e))
    ensures RestoreWorded<C, P, S>(KindOf(e), m) == Some(e)
  {
    MalformedKinds<C, P, S>(m);
    var f := FieldsOf(codes, e);
    assert m[Atom(f[0].0)] == ValueTerm(f[0].1);
  }

  lemma {:induction false} WordedLossless<C, P, S>(codes: Codes<C, P, S>, e: Error<C, P, S>, m: Keyed)
    requires Worded(e) && !Malformed(e) && Carries(m, KindOf(e), FieldsOf(codes, e))
    ensures RestoreWorded<C, P, S>(KindOf(e), m) == Some(e)
  {
    var f := FieldsOf(codes, e);
    assert m[Atom(f[0].0)] == ValueTerm(f[0].1);
  }

  lemma {:induction false} BitsAt(m: Keyed, name: Atom, bits: U64)
    requires name in m && m[name] == Binary(Hex(bits, 16))
    ensures U64At(m, name) == bits
  {
    SixteenDigits(bits);
  }

  lemma {:induction false} CoordinateKind<C, P, S>(m: Keyed)
    ensures RestoreOther<C, P, S>("invalid_coordinate", m) ==
            Some(InvalidCoordinate(U64At(m, Atom("lat_deg_bits")), U64At(m, Atom("lon_deg_bits"))))
  {
  }

  lemma {:induction false} CoordinateLossless<C, P, S>(codes: Codes<C, P, S>, e: Error<C, P, S>, m: Keyed)
    requires e.InvalidCoordinate? && Carries(m, KindOf(e), FieldsOf(codes, e))
    ensures RestoreOther<C, P, S>(KindOf(e), m) == Some(e)
  {
    var f := FieldsOf(codes, e);
    assert m[Atom(f[0].0)] == ValueTerm(f[0].1) && m[Atom(f[1].0)] == ValueTerm(f[1].1);
    CoordinateKind<C, P, S>(m);
    BitsAt(m, Atom("lat_deg_bits"), e.latDegBits);
    BitsAt(m, Atom("lon_deg_bits"), e.lonDegBits);
  }

  lemma {:induction false} NumberedLossless<C, P, S>(codes: Codes<C, P, S>, e: Error<C, P, S>, m: Keyed)
    requires !Coded(e) && !Worded(e) && !e.InvalidCoordinate? && Carries(m, KindOf(e), FieldsOf(codes, e))
    ensures RestoreOther<C, P, S>(KindOf(e), m) == Some(e)
  {
    var f := FieldsOf(codes, e);
    assert |f| > 0 ==> m[Atom(f[0].0)] == ValueTerm(f[0].1);
    assert |f| > 1 ==> m[Atom(f[1].0)] == ValueTerm(f[1].1);
    assert |f| > 2 ==> m[Atom(f[2].0)] == ValueTerm(f[2].1);
  }

  lemma {:induction false} MalformedIsNotCoded<C, P, S>(codes: Codes<C, P, S>, e: Error<C, P, S>, m: Keyed)
    requires Malformed(e)
    ensures RestoreCoded(codes, KindOf(e), m).None?
  {
  }

  lemma {:induction false} WordedIsNotCoded<C, P, S>(codes: Codes<C, P, S>, e: Error<C, P, S>, m: Keyed)
    requires Worded(e) && !Malformed(e)
    ensures RestoreCoded(codes, KindOf(e), m).None?
  {
  }

  lemma {:induction false} OtherIsNotCoded<C, P, S>(codes: Codes<C, P, S>, e: Error<C, P, S>, m: Keyed)
    requires !Coded(e) && !Worded(e)
    ensures RestoreCoded(codes, KindOf(e), m).None?
  {
  }

  lemma {:induction false} OtherIsNotWorded<C, P, S>(e: Error<C, P, S>, m: Keyed)
    requires !Coded(e) && !Worded(e)
    ensures RestoreWorded<C, P, S>(KindOf(e), m).None?
  {
  }

  /** The projected map determines the error, across all thirty variants. */
  lemma {:induction false} Lossless<C(!new), P(!new), S(!new)>(codes: Codes<C, P, S>, e: Error<C, P, S>, m: Keyed)
    requires Readable(codes) && Carries(m, KindOf(e), FieldsOf(codes, e))
    ensures Recover(codes, m) == Some(e)
  {
    if Dated(e) { DatedLossless(codes, e, m); }
    else if AboutIssue(e) { IssueLossless(codes, e, m); }
    else if Coded(e) { CodedLossless(codes, e, m); }
    else if Malformed(e) {
      MalformedLossless(codes, e, m);
      MalformedIsNotCoded(codes, e, m);
    } else if Worded(e) {
      WordedLossless(codes, e, m);
      WordedIsNotCoded(codes, e, m);
    } else {
      OtherIsNotCoded(codes, e, m);
      OtherIsNotWorded(e, m);
      if e.InvalidCoordinate? { CoordinateLossless(codes, e, m); } else { NumberedLossless(codes, e, m); }
    }
  }

  predicate HasCenter<C, P, S>(e: Error<C, P, S>) {
    || e.UnsupportedProduct? || e.UnsupportedProductEra? || e.UnsupportedDistributionEra? || e.UnsupportedSample?
    || e.MissingIssue? || e.UnexpectedIssue? || e.UnsupportedIssue? || e.UnsupportedNominalSchedule?
  }

  predicate HasProductType<C, P, S>(e: Error<C, P, S>) {
    || e.UnsupportedProduct? || e.UnsupportedDistribution? || e.UnsupportedProductEra?
    || e.UnsupportedDistributionEra? || e.UnsupportedSample? || e.UnsupportedNominalSchedule?
  }

  predicate Entry(m: Keyed, name: string, t: Term) {
    Atom(name) in m && m[Atom(name)] == t
  }

  /** Each key holds the part of the error that it names: the things named by code, */
  lemma {:induction false} CodedKeys<C, P, S>(codes: Codes<C, P, S>, e: Error<C, P, S>, kind: string, m: Keyed)
    requires Carries(m, kind, FieldsOf(codes, e))
    ensures HasCenter(e) ==> Entry(m, "center", Binary(codes.center(e.center)))
    ensures HasProductType(e) ==> Entry(m, "product_type", Binary(codes.productType(e.productType)))
    ensures e.UnsupportedDistribution? || e.UnsupportedDistributionEra? ==>
              Entry(m, "source", Binary(codes.source(e.source)))
    ensures e.UnsupportedSample? ==> Entry(m, "sample", Binary(e.sample))
    ensures e.UnsupportedIssue? ==> Entry(m, "issue", Binary(e.issue))
  {
    var f := FieldsOf(codes, e);
    assert |f| > 0 ==> Entry(m, f[0].0, ValueTerm(f[0].1));
    assert |f| > 1 ==> Entry(m, f[1].0, ValueTerm(f[1].1));
    assert |f| > 2 ==> Entry(m, f[2].0, ValueTerm(f[2].1));
  }

  /** the texts, */
  lemma {:induction false} TextKeys<C, P, S>(codes: Codes<C, P, S>, e: Error<C, P, S>, kind: string, m: Keyed)
    requires Carries(m, kind, FieldsOf(codes, e))
    ensures Worded(e) && !e.InconsistentProductIdentity? && !e.UnrecognizedArchiveListing? ==>
              Entry(m, "value", Binary(e.value))
    ensures e.InconsistentProductIdentity? ==> Entry(m, "field", Binary(e.field))
    ensures e.UnrecognizedArchiveListing? ==> Entry(m, "reason", Binary(e.reason))
    ensures e.NoOpenMirror? ==>
              Entry(m, "center", Binary(e.centerText)) && Entry(m, "product_type", Binary(e.productTypeText))
  {
    var f := FieldsOf(codes, e);
    assert |f| > 0 ==> Entry(m, f[0].0, ValueTerm(f[0].1));
    assert |f| > 1 ==> Entry(m, f[1].0, ValueTerm(f[1].1));
  }

  /** the dates, and every number. */
  lemma {:induction false} NumberKeys<C, P, S>(codes: Codes<C, P, S>, e: Error<C, P, S>, kind: string, m: Keyed)
    requires Carries(m, kind, FieldsOf(codes, e))
    ensures e.UnsupportedProductEra? || e.UnsupportedDistributionEra? || e.DateBeforeGpsEpoch? ==>
              Entry(m, "date", Triple(e.date.year, e.date.month, e.date.day))
    ensures e.InvalidDate? ==>
              && Entry(m, "year", Integer(e.year)) && Entry(m, "month", Integer(e.month))
              && Entry(m, "day", Integer(e.day))
    ensures e.InvalidGpsDayOfWeek? ==> Entry(m, "gps_day", Integer(e.gpsDay))
    ensures e.InvalidDateTime? ==>
              && Entry(m, "hour", Integer(e.hour)) && Entry(m, "minute", Integer(e.minute))
              && Entry(m, "second", Integer(e.second))
    ensures e.InvalidTileIndex? ==>
              Entry(m, "lat_index", Integer(e.latIndex)) && Entry(m, "lon_index", Integer(e.lonIndex))
    ensures e.InvalidCoordinate? ==>
              && Entry(m, "lat_deg_bits", Binary(Hex(e.latDegBits, 16)))
              && Entry(m, "lon_deg_bits", Binary(Hex(e.lonDegBits, 16)))
  {
    var f := FieldsOf(codes, e);
    assert |f| > 0 ==> Entry(m, f[0].0, ValueTerm(f[0].1));
    assert |f| > 1 ==> Entry(m, f[1].0, ValueTerm(f[1].1));
    assert |f| > 2 ==> Entry(m, f[2].0, ValueTerm(f[2].1));
    assert |f| > 3 ==> Entry(m, f[3].0, ValueTerm(f[3].1));
  }

  /** The map an error is encoded as: one entry per name, no panic on the way, and
      the error can be read back from it. */
  method ErrorTerm<C(!new), P(!new), S(!new)>(codes: Codes<C, P, S>, e: Error<C, P, S>, text: string) returns (m: Keyed)
    ensures Readable(codes) ==> Recover(codes, m) == Some(e)
    ensures Atom("message") in m && m[Atom("message")] == Binary(text)
    ensures |m| == 2 + |FieldsOf(codes, e)|
  {
    NamesAreKnown(codes, e);
    var projected := ProjectionTerm(KindOf(e), text, FieldsOf(codes, e));
    m := projected.value;
    if Readable(codes) { Lossless(codes, e, m); }
  }
}
