/**
 * The water-system map: the three violation-count classifiers, the county table that centres the
 * map (`MapUpdater`), the placement of each marker (`generateCoordinates`, with its 32-bit string
 * hash), and what the component renders. Coordinates are integers in units of 1/10000 degree, the
 * precision every entry of the county table is written in.
 */
module MapComponent {
  import opened Wrappers
  import opened JsString

  // ---------------------------------------------------------------------------------------------
  // Violation-count buckets: getMarkerIcon, getViolationStatusText, getViolationStatusColor
  // ---------------------------------------------------------------------------------------------

  /** The three buckets the classifiers share. */
  datatype Bucket = Compliant | MinorIssues | MajorIssues

  /** The reference split of counts: zero, any other count up to two, more than two. */
  predicate InBucket(violationCount: int, b: Bucket) {
    match b
    case Compliant => violationCount == 0
    case MinorIssues => violationCount != 0 && violationCount <= 2
    case MajorIssues => violationCount > 2
  }

  /** The marker icons: the three bucket colours and the blue highlight of the selected system. */
  datatype Icon = GreenIcon | YellowIcon | RedIcon | BlueIcon

  /** `getMarkerIcon`. */
  function MarkerIcon(violationCount: int): Icon {
    if violationCount == 0 then GreenIcon
    else if violationCount <= 2 then YellowIcon
    else RedIcon
  }

  /** `getViolationStatusText`. */
  function StatusText(violationCount: int): string {
    if violationCount == 0 then "Compliant"
    else if violationCount <= 2 then "Minor Issues"
    else "Major Issues"
  }

  /** `getViolationStatusColor`. */
  function StatusColor(violationCount: int): string {
    if violationCount == 0 then "bg-green-500"
    else if violationCount <= 2 then "bg-yellow-500"
    else "bg-red-500"
  }

  /** How each bucket is shown: its icon, its label and its badge colour. */
  function BucketIcon(b: Bucket): Icon {
    match b
    case Compliant => GreenIcon
    case MinorIssues => YellowIcon
    case MajorIssues => RedIcon
  }

  function BucketText(b: Bucket): string {
    match b
    case Compliant => "Compliant"
    case MinorIssues => "Minor Issues"
    case MajorIssues => "Major Issues"
  }

  function BucketColor(b: Bucket): string {
    match b
    case Compliant => "bg-green-500"
    case MinorIssues => "bg-yellow-500"
    case MajorIssues => "bg-red-500"
  }

  /**
   * The three classifiers agree: every count falls in exactly one bucket, and the icon, the label
   * and the colour are all that bucket's. Icons, labels and colours tell the buckets apart.
   */
  lemma ClassifiersAgree(violationCount: int, b: Bucket)
    ensures InBucket(violationCount, b) <==> MarkerIcon(violationCount) == BucketIcon(b)
    ensures InBucket(violationCount, b) <==> StatusText(violationCount) == BucketText(b)
    ensures InBucket(violationCount, b) <==> StatusColor(violationCount) == BucketColor(b)
  {
  }

  /** Because the middle test is `<= 2`, every non-zero count below three is a minor issue, negatives included. */
  lemma MinorBucketIncludesNegatives(violationCount: int)
    ensures violationCount != 0 && violationCount < 3 <==> StatusText(violationCount) == "Minor Issues"
    ensures violationCount < 0 ==> MarkerIcon(violationCount) == YellowIcon
  {
  }

  // ---------------------------------------------------------------------------------------------
  // The county table: GEORGIA_COUNTIES and MapUpdater
  // ---------------------------------------------------------------------------------------------

  /** A latitude and longitude in units of 1/10000 degree. */
  datatype Centre = Centre(lat: int, lng: int)

  const FultonCentre: Centre := Centre(337490, -843880)

  /** `GEORGIA_COUNTIES[county]`: the approximate centre of a county, keyed by its upper-case name. */
  function CountyCentre(county: string): Option<Centre> {
    match county
    case "FULTON" => Some(Centre(337490, -843880))
    case "GWINNETT" => Some(Centre(339560, -839930))
    case "COBB" => Some(Centre(339525, -845493))
    case "DEKALB" => Some(Centre(337490, -843880))
    case "CHATHAM" => Some(Centre(320809, -810912))
    case "CLAYTON" => Some(Centre(335415, -843566))
    case "CHEROKEE" => Some(Centre(342440, -844760))
    case "HENRY" => Some(Centre(334530, -841460))
    case "FORSYTH" => Some(Centre(342070, -841400))
    case "PAULDING" => Some(Centre(339200, -848670))
    case "CARROLL" => Some(Centre(335800, -850800))
    case "DOUGLAS" => Some(Centre(337510, -847470))
    case "FAYETTE" => Some(Centre(334140, -844900))
    case "NEWTON" => Some(Centre(335120, -838500))
    case "ROCKDALE" => Some(Centre(336540, -840270))
    case "BARROW" => Some(Centre(340060, -837130))
    case "WALTON" => Some(Centre(337830, -837330))
    case "HALL" => Some(Centre(343170, -838180))
    case "COLUMBIA" => Some(Centre(335440, -821310))
    case "RICHMOND" => Some(Centre(334710, -819640))
    case "BIBB" => Some(Centre(328407, -836324))
    case "HOUSTON" => Some(Centre(324584, -836666))
    case "MUSCOGEE" => Some(Centre(324610, -849877))
    case "CLARKE" => Some(Centre(339519, -833576))
    case "WHITFIELD" => Some(Centre(347730, -849670))
    case "GORDON" => Some(Centre(345030, -848710))
    case "FLOYD" => Some(Centre(342630, -851640))
    case "BARTOW" => Some(Centre(342440, -848400))
    case "SPALDING" => Some(Centre(332630, -842840))
    case "COWETA" => Some(Centre(333530, -847690))
    case "TROUP" => Some(Centre(330340, -850310))
    case "MERIWETHER" => Some(Centre(330410, -846970))
    case "PIKE" => Some(Centre(330920, -843890))
    case "UPSON" => Some(Centre(328810, -842990))
    case "LAMAR" => Some(Centre(330760, -841390))
    case "MONROE" => Some(Centre(330140, -839180))
    case "JONES" => Some(Centre(330250, -835600))
    case "PUTNAM" => Some(Centre(333220, -833720))
    case "MORGAN" => Some(Centre(335920, -834920))
    case "OCONEE" => Some(Centre(338340, -834370))
    case "JACKSON" => Some(Centre(341340, -835660))
    case "BANKS" => Some(Centre(343540, -834970))
    case "FRANKLIN" => Some(Centre(343750, -832290))
    case "HART" => Some(Centre(343530, -829640))
    case "ELBERT" => Some(Centre(341110, -828680))
    case "MADISON" => Some(Centre(341280, -832130))
    case "OGLETHORPE" => Some(Centre(338810, -830810))
    case "WILKES" => Some(Centre(337810, -827430))
    case "LINCOLN" => Some(Centre(337940, -824510))
    case "WARREN" => Some(Centre(334090, -826620))
    case "MCDUFFIE" => Some(Centre(334820, -824810))
    case "TALIAFERRO" => Some(Centre(335660, -828780))
    case "GREENE" => Some(Centre(335770, -831660))
    case "HANCOCK" => Some(Centre(332700, -830000))
    case "WASHINGTON" => Some(Centre(329670, -827940))
    case "JOHNSON" => Some(Centre(327020, -826620))
    case "EMANUEL" => Some(Centre(325930, -823020))
    case "JEFFERSON" => Some(Centre(330550, -824180))
    case "BURKE" => Some(Centre(330620, -820000))
    case "JENKINS" => Some(Centre(327920, -819630))
    case "SCREVEN" => Some(Centre(327500, -816120))
    case "BULLOCH" => Some(Centre(323950, -817430))
    case "EVANS" => Some(Centre(321560, -818870))
    case "TATTNALL" => Some(Centre(320460, -820580))
    case "TOOMBS" => Some(Centre(321210, -823310))
    case "CANDLER" => Some(Centre(324030, -820740))
    case "TREUTLEN" => Some(Centre(324040, -825640))
    case "MONTGOMERY" => Some(Centre(321740, -825350))
    case "WHEELER" => Some(Centre(321170, -827240))
    case "TELFAIR" => Some(Centre(319330, -829390))
    case "DODGE" => Some(Centre(321720, -831680))
    case "LAURENS" => Some(Centre(324630, -829220))
    case "WILCOX" => Some(Centre(319730, -834320))
    case "TURNER" => Some(Centre(317250, -836240))
    case "CRISP" => Some(Centre(319630, -837770))
    case "DOOLY" => Some(Centre(321580, -837990))
    case "PULASKI" => Some(Centre(322330, -834650))
    case "BLEECKLEY" => Some(Centre(324340, -833270))
    case "TWIGGS" => Some(Centre(326670, -834270))
    case "WILKINSON" => Some(Centre(328040, -831720))
    case "BALDWIN" => Some(Centre(330580, -832500))
    case _ => None
  }

  /** `city_name?.toUpperCase() || 'FULTON'`: the key looked up in the county table. */
  function CountyKey(cityName: Option<string>): (k: string)
    ensures cityName.Some? && cityName.value != [] ==> k == Upper(cityName.value)
    ensures cityName.None? || cityName.value == [] ==> k == "FULTON"
    ensures k != []
  {
    if cityName.Some? && Upper(cityName.value) != [] then Upper(cityName.value) else "FULTON"
  }

  /** `GEORGIA_COUNTIES[county] || GEORGIA_COUNTIES['FULTON']`: where `MapUpdater` centres the map. */
  function SelectedCentre(cityName: Option<string>): (c: Centre)
    ensures CountyCentre(CountyKey(cityName)).Some? ==> Some(c) == CountyCentre(CountyKey(cityName))
    ensures CountyCentre(CountyKey(cityName)).None? ==> c == FultonCentre
  {
    var found := CountyCentre(CountyKey(cityName));
    if found.Some? then found.value else FultonCentre
  }

  /** The map is always centred on some county of the table, FULTON when nothing else matches. */
  lemma SelectedCentreInTable(cityName: Option<string>)
    ensures exists county :: CountyCentre(county) == Some(SelectedCentre(cityName))
    ensures cityName.None? ==> SelectedCentre(cityName) == FultonCentre
  {
    assert CountyCentre("FULTON") == Some(FultonCentre);
    var key := CountyKey(cityName);
    if CountyCentre(key).Some? {
      assert CountyCentre(key) == Some(SelectedCentre(cityName));
    }
  }

  /** Only the upper-case form of the city name matters. */
  lemma SelectedCentreIgnoresCase(s: string, t: string)
    requires Upper(s) == Upper(t)
    ensures SelectedCentre(Some(s)) == SelectedCentre(Some(t))
  {
  }

  /** The table is keyed by county but looked up by city name: a system in Atlanta misses it. */
  lemma CityNameMissesTable()
    ensures CountyKey(Some("Atlanta")) == "ATLANTA" && CountyCentre("ATLANTA").None?
    ensures SelectedCentre(Some("Atlanta")) == FultonCentre
  {
    assert CountyKey(Some("Atlanta")) == "ATLANTA";
  }

  /** The table spells Bleckley County BLEECKLEY, so its own name misses it. */
  lemma MisspelledCountyMissesTable()
    ensures CountyKey(Some("Bleckley")) == "BLECKLEY" && CountyCentre("BLECKLEY").None?
    ensures CountyCentre("BLEECKLEY").Some?
  {
    assert CountyKey(Some("Bleckley")) == "BLECKLEY";
  }

  /** DEKALB (Decatur) carries exactly FULTON's (Atlanta's) coordinates. */
  lemma DekalbSharesFultonCentre()
    ensures CountyCentre("DEKALB") == CountyCentre("FULTON") == Some(FultonCentre)
  {
  }

  // ---------------------------------------------------------------------------------------------
  // The fallback hash of generateCoordinates
  // ---------------------------------------------------------------------------------------------

  /** One step of the `reduce`: `a = ((a << 5) - a) + b.charCodeAt(0); return a & a`. */
  function HashStep(a: int, c: char): int {
    ToInt32(ToInt32(a * 32) - a + c as int)
  }

  /** The `reduce` over `system.id.split('')`, from accumulator `a`. */
  function HashFrom(a: int, id: string): (h: int)
    ensures id != [] ==> -0x8000_0000 <= h < 0x8000_0000
    decreases |id|
  {
    if id == [] then a else HashFrom(HashStep(a, id[0]), id[1..])
  }

  /** `systemHash`: the fold started from 0. */
  function Hash(id: string): (h: int)
    ensures -0x8000_0000 <= h < 0x8000_0000
  {
    HashFrom(0, id)
  }

  /** The reference: the same fold `h <- 31 * h + charCode` over unbounded integers. */
  function Horner(a: int, id: string): int
    decreases |id|
  {
    if id == [] then a else Horner(31 * a + id[0] as int, id[1..])
  }

  /** The shift-and-subtract step is `int32(31 * a + charCode)`. */
  lemma HashStepWraps(a: int, c: char)
    ensures HashStep(a, c) == ToInt32(31 * a + c as int)
  {
    ToInt32Congruent(ToInt32(a * 32) - a + c as int, 31 * a + c as int);
  }

  /** Accumulators that agree modulo 2^32 give folds that agree modulo 2^32. */
  lemma {:induction false} HornerCongruent(x: int, y: int, id: string)
    requires (x - y) % 0x1_0000_0000 == 0
    ensures (Horner(x, id) - Horner(y, id)) % 0x1_0000_0000 == 0
    decreases |id|
  {
    if id != [] {
      var c := id[0] as int;
      assert (31 * x + c) - (31 * y + c) == 31 * (x - y);
      MultipleScales(x - y, 31);
      HornerCongruent(31 * x + c, 31 * y + c, id[1..]);
    }
  }

  /** Wrapping at every step is the same as wrapping once at the end. */
  lemma {:induction false} HashFromIsHorner(a: int, id: string)
    requires -0x8000_0000 <= a < 0x8000_0000
    ensures HashFrom(a, id) == ToInt32(Horner(a, id))
    decreases |id|
  {
    if id == [] {
      ToInt32Fixed(a);
    } else {
      var b := HashStep(a, id[0]);
      var wide := 31 * a + id[0] as int;
      HashStepWraps(a, id[0]);
      HashFromIsHorner(b, id[1..]);
      HornerCongruent(b, wide, id[1..]);
      ToInt32Congruent(Horner(b, id[1..]), Horner(wide, id[1..]));
    }
  }

  /** `systemHash` is the polynomial hash `sum of id[i] * 31^(n-1-i)`, wrapped into 32 bits. */
  lemma HashIsPolynomial(id: string)
    ensures Hash(id) == ToInt32(Horner(0, id))
  {
    HashFromIsHorner(0, id);
  }

  // ---------------------------------------------------------------------------------------------
  // The fallback offsets
  // ---------------------------------------------------------------------------------------------

  /** An offset from a centre, in units of 1/10000 degree. */
  datatype Offset = Offset(lat: int, lng: int)

  /**
   * The offsets as written: `(systemHash % 1000) / 10000 - 0.05` and the same of `systemHash >> 10`.
   * The arithmetic shift of a 32-bit value is floor division by 1024; `%` truncates, so a negative
   * hash gives a negative remainder.
   */
  function OffsetsAsWritten(h: int): (o: Offset)
    ensures o.lat == Remainder(h, 1000) - 500 && o.lng == Remainder(h / 1024, 1000) - 500
    ensures -1500 < o.lat < 500 && -1500 < o.lng < 500
  {
    Offset(Remainder(h, 1000) - 500, Remainder(h / 1024, 1000) - 500)
  }

  /** A negative hash leaves the advertised band of +-0.05 degrees: "zzzzzz" lands 0.1164 degrees south. */
  lemma OffsetsAsWrittenLeaveBand()
    ensures OffsetsAsWritten(Hash("zzzzzz")).lat == -1164
  {
    HashOfSixZs();
    assert Remainder(-685785664, 1000) == -664;
  }

  /** Six `z`s already overflow into a negative hash. */
  lemma HashOfSixZs()
    ensures Hash("zzzzzz") == -685785664
  {
    assert HashStep(0, 'z') == 122;
    assert HashStep(122, 'z') == 3904;
    assert HashStep(3904, 'z') == 121146;
    assert HashStep(121146, 'z') == 3755648;
    assert HashStep(3755648, 'z') == 116425210;
    assert HashStep(116425210, 'z') == -685785664;
    assert HashFrom(116425210, "z") == -685785664;
    assert HashFrom(3755648, "zz") == -685785664;
    assert HashFrom(121146, "zzz") == -685785664;
    assert HashFrom(3904, "zzzz") == -685785664;
    assert HashFrom(122, "zzzzz") == -685785664;
  }

  /** The evidently intended offsets: a non-negative remainder keeps both within [-0.05, 0.05). */
  function FallbackOffsets(h: int): (o: Offset)
    ensures -500 <= o.lat < 500 && -500 <= o.lng < 500
  {
    Offset(h % 1000 - 500, (h / 1024) % 1000 - 500)
  }

  /** The non-negative remainder differs from the truncating one by 1000 exactly when that one is negative. */
  lemma ModuloIsShiftedRemainder(x: int)
    ensures x % 1000 == Remainder(x, 1000) + (if x < 0 && x % 1000 != 0 then 1000 else 0)
    ensures x % 1000 != 0 && x < 0 <==> Remainder(x, 1000) < 0
  {
    if x < 0 {
      var y := -x;
      var q, r := y / 1000, y % 1000;
      assert y == 1000 * q + r && 0 <= r < 1000;
      if r == 0 {
        assert x == 1000 * -q;
      } else {
        assert x == 1000 * (-q - 1) + (1000 - r);
      }
    }
  }

  /**
   * Each intended offset differs from the written one exactly when the written remainder is
   * negative, and then by 1000 units, a tenth of a degree.
   */
  lemma FallbackOffsetsCorrectAsWritten(h: int)
    ensures FallbackOffsets(h).lat == OffsetsAsWritten(h).lat + (if Remainder(h, 1000) < 0 then 1000 else 0)
    ensures FallbackOffsets(h).lng == OffsetsAsWritten(h).lng + (if Remainder(h / 1024, 1000) < 0 then 1000 else 0)
    ensures h >= 0 ==> FallbackOffsets(h) == OffsetsAsWritten(h)
  {
    ModuloIsShiftedRemainder(h);
    ModuloIsShiftedRemainder(h / 1024);
  }

  // ---------------------------------------------------------------------------------------------
  // generateCoordinates and the rendered map
  // ---------------------------------------------------------------------------------------------

  /** The fields of a search result the map reads. */
  datatype MapSystem = MapSystem(id: string, cityName: Option<string>, violationCount: int)

  /** `georgiaCenter`, the centre of the fallback and of the initial view. */
  const GeorgiaCentre: Centre := Centre(321656, -829001)

  /** Where a marker goes: near a county centre (the random jitter is not modelled) or off the state centre. */
  datatype Placement = NearCounty(county: string, centre: Centre) | NearStateCentre(offset: Offset)

  /** `generateCoordinates`, with the non-negative remainder in the fallback. */
  function Place(system: MapSystem): (p: Placement)
    ensures p.NearCounty? <==> CountyCentre(CountyKey(system.cityName)).Some?
    ensures p.NearCounty? ==> p.county == CountyKey(system.cityName) && CountyCentre(p.county) == Some(p.centre)
    ensures p.NearStateCentre? ==> p.offset == FallbackOffsets(Hash(system.id))
    ensures p.NearStateCentre? && Hash(system.id) >= 0 ==> p.offset == OffsetsAsWritten(Hash(system.id))
  {
    FallbackOffsetsCorrectAsWritten(Hash(system.id));
    var key := CountyKey(system.cityName);
    var found := CountyCentre(key);
    if found.Some? then NearCounty(key, found.value) else NearStateCentre(FallbackOffsets(Hash(system.id)))
  }

  /** A system without a city name is placed in FULTON, never at the state centre. */
  lemma MissingCityPlacedInFulton(system: MapSystem)
    requires system.cityName.None? || system.cityName.value == []
    ensures Place(system) == NearCounty("FULTON", FultonCentre)
  {
  }

  /** A marker's placement depends on the system's id and its county key alone, nothing else. */
  lemma PlaceDependsOnIdAndCityOnly(s: MapSystem, t: MapSystem)
    requires s.id == t.id && CountyKey(s.cityName) == CountyKey(t.cityName)
    ensures Place(s) == Place(t)
  {
  }

  /** One result's marker. */
  datatype MapMarker = MapMarker(system: MapSystem, icon: Icon, placement: Placement)

  /** What the component renders. */
  datatype MapView =
    | NoSystemsView
    | MapView(markers: seq<MapMarker>, highlighted: Option<MapMarker>, centredOn: Option<Centre>)

  function ResultMarker(system: MapSystem): MapMarker {
    MapMarker(system, MarkerIcon(system.violationCount), Place(system))
  }

  /**
   * The component: no results, no map; otherwise a marker per result and a blue one for the
   * selected system, both only once the map is ready, and `MapUpdater` centring on the selection.
   */
  function Render(searchResults: seq<MapSystem>, selected: Option<MapSystem>, mapReady: bool): (v: MapView)
    ensures v.NoSystemsView? <==> searchResults == []
    ensures v.MapView? ==> |v.markers| == (if mapReady then |searchResults| else 0)
    ensures v.MapView? && mapReady ==>
      forall i :: 0 <= i < |v.markers| ==>
        v.markers[i].system == searchResults[i] && v.markers[i].placement == Place(searchResults[i])
        && v.markers[i].icon == MarkerIcon(searchResults[i].violationCount)
    ensures v.MapView? ==> (v.highlighted.Some? <==> mapReady && selected.Some?)
    ensures v.MapView? && v.highlighted.Some? ==>
      v.highlighted.value == MapMarker(selected.value, BlueIcon, Place(selected.value))
    ensures v.MapView? ==> (v.centredOn.Some? <==> selected.Some?)
    ensures v.MapView? && selected.Some? ==> v.centredOn == Some(SelectedCentre(selected.value.cityName))
  {
    if searchResults == [] then NoSystemsView
    else
      MapView(
        if mapReady then seq(|searchResults|, i requires 0 <= i < |searchResults| => ResultMarker(searchResults[i])) else [],
        if mapReady && selected.Some? then Some(MapMarker(selected.value, BlueIcon, Place(selected.value))) else None,
        if selected.Some? then Some(SelectedCentre(selected.value.cityName)) else None)
  }

  /** Result markers never use the highlight colour, and their colour is their count's bucket. */
  lemma ResultMarkersShowBuckets(searchResults: seq<MapSystem>, selected: Option<MapSystem>, i: int)
    requires 0 <= i < |searchResults|
    ensures var v := Render(searchResults, selected, true);
      v.MapView? && v.markers[i].icon != BlueIcon
      && (v.markers[i].icon == GreenIcon <==> searchResults[i].violationCount == 0)
  {
  }
}
