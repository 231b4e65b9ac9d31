/**
 * The SDWIS data dictionary: thirteen code tables, their `get*Description` lookups with the
 * `'Unknown'` fallback, `getAllDescriptions`, the health-based category test and the two colour
 * classifiers. Each table is a lookup from a code to its description, the table's own properties,
 * together with the list of its codes in the order the table lists them.
 */
module DataDictionary {
  import opened Wrappers
  import opened OrderedMap

  /** The thirteen tables of `DATA_DICTIONARY`. */
  datatype DictionaryKind =
    | PwsType | PwsActivity | ViolationCategory | ViolationStatus | PrimarySource | OwnerType
    | WaterType | Availability | AreaType | Evaluation | ResultSign | RuleFamily | RuleCode

  function PwsTypeEntry(code: string): Option<string> {
    match code
    case "CWS" => Some("Community Water System")
    case "TNCWS" => Some("Transient Non-Community Water System")
    case "NTNCWS" => Some("Non-Transient Non-Community Water System")
    case _ => None
  }

  function PwsActivityEntry(code: string): Option<string> {
    match code
    case "A" => Some("Active")
    case "I" => Some("Inactive")
    case "N" => Some("Now Non-Public")
    case "M" => Some("Merged")
    case "P" => Some("Future Regulated")
    case _ => None
  }

  function ViolationCategoryEntry(code: string): Option<string> {
    match code
    case "TT" => Some("Treatment Technique Violation")
    case "MRDL" => Some("Maximum Residual Disinfectant Level")
    case "Other" => Some("Other Violation")
    case "MCL" => Some("Maximum Contaminant Level Violation")
    case "MR" => Some("Monitoring and Reporting")
    case "MON" => Some("Monitoring Violation")
    case "RPT" => Some("Reporting Violation")
    case _ => None
  }

  function ViolationStatusEntry(code: string): Option<string> {
    match code
    case "Resolved" => Some("The violation has been resolved")
    case "Archived" => Some("The violation is archived (more than 5 years old)")
    case "Addressed" => Some("The violation is addressed by formal enforcement")
    case "Unaddressed" => Some("The violation has not been addressed")
    case _ => None
  }

  function PrimarySourceEntry(code: string): Option<string> {
    match code
    case "GW" => Some("Ground Water")
    case "GWP" => Some("Ground Water Purchased")
    case "SW" => Some("Surface Water")
    case "SWP" => Some("Surface Water Purchased")
    case "GU" => Some("Ground Water Under Influence")
    case "GUP" => Some("Ground Water Under Influence Purchased")
    case _ => None
  }

  function OwnerTypeEntry(code: string): Option<string> {
    match code
    case "F" => Some("Federal Government")
    case "L" => Some("Local Government")
    case "M" => Some("Public/Private")
    case "N" => Some("Native American")
    case "P" => Some("Private")
    case "S" => Some("State Government")
    case _ => None
  }

  function WaterTypeEntry(code: string): Option<string> {
    match code
    case "GW" => Some("Ground Water")
    case "SW" => Some("Surface Water")
    case "GU" => Some("Ground Water Under Influence")
    case _ => None
  }

  function AvailabilityEntry(code: string): Option<string> {
    match code
    case "E" => Some("Emergency")
    case "I" => Some("Interim")
    case "P" => Some("Permanent")
    case "O" => Some("Other")
    case "S" => Some("Seasonal")
    case "U" => Some("Unknown")
    case _ => None
  }

  function AreaTypeEntry(code: string): Option<string> {
    match code
    case "TR" => Some("Tribal")
    case "CN" => Some("County")
    case "ZC" => Some("Zip Code")
    case "CT" => Some("City")
    case "IR" => Some("Indian Reservation")
    case _ => None
  }

  function EvaluationEntry(code: string): Option<string> {
    match code
    case "M" => Some("Minor Deficiencies")
    case "N" => Some("No Deficiencies")
    case "R" => Some("Recommendations Made")
    case "S" => Some("Significant Deficiencies")
    case "X" => Some("Not Evaluated")
    case "Z" => Some("Not Applicable")
    case "D" => Some("Sanitary Defect")
    case _ => None
  }

  function ResultSignEntry(code: string): Option<string> {
    match code
    case "L" => Some("Less Than (Below Detection Limit)")
    case "E" => Some("Equal To (Exact Value)")
    case _ => None
  }

  function RuleFamilyEntry(code: string): Option<string> {
    match code
    case "100" => Some("Microbials")
    case "200" => Some("Disinfectants and Disinfection Byproducts")
    case "300" => Some("Chemicals")
    case "400" => Some("Other")
    case "500" => Some("Not Regulated")
    case _ => None
  }

  function RuleCodeEntry(code: string): Option<string> {
    match code
    case "110" => Some("Total Coliform Rule")
    case "111" => Some("Revised Total Coliform Rule")
    case "121" => Some("Surface Water Treatment Rule")
    case "122" => Some("Long Term 1 Enhanced Surface Water Treatment Rule")
    case "123" => Some("Long Term 2 Enhanced Surface Water Treatment Rule")
    case "130" => Some("Filter Backwash Rule")
    case "140" => Some("Ground Water Rule")
    case "210" => Some("Stage 1 Disinfectants and Disinfection Byproducts Rule")
    case "220" => Some("Stage 2 Disinfectants and Disinfection Byproducts Rule")
    case "230" => Some("Total Trihalomethanes")
    case "310" => Some("Volatile Organic Chemicals")
    case "320" => Some("Synthetic Organic Chemicals")
    case "330" => Some("Inorganic Chemicals")
    case "331" => Some("Nitrates")
    case "332" => Some("Arsenic")
    case "333" => Some("Inorganic Chemicals")
    case "340" => Some("Radionuclides")
    case "350" => Some("Lead and Copper Rule")
    case "410" => Some("Public Notice Rule")
    case "420" => Some("Consumer Confidence Rule")
    case "430" => Some("Miscellaneous")
    case "500" => Some("Not Regulated")
    case _ => None
  }

  /** `DATA_DICTIONARY[kind][code]` for the table's own codes. */
  function Entry(kind: DictionaryKind, code: string): Option<string> {
    match kind
    case PwsType => PwsTypeEntry(code)
    case PwsActivity => PwsActivityEntry(code)
    case ViolationCategory => ViolationCategoryEntry(code)
    case ViolationStatus => ViolationStatusEntry(code)
    case PrimarySource => PrimarySourceEntry(code)
    case OwnerType => OwnerTypeEntry(code)
    case WaterType => WaterTypeEntry(code)
    case Availability => AvailabilityEntry(code)
    case AreaType => AreaTypeEntry(code)
    case Evaluation => EvaluationEntry(code)
    case ResultSign => ResultSignEntry(code)
    case RuleFamily => RuleFamilyEntry(code)
    case RuleCode => RuleCodeEntry(code)
  }

  /** The codes of each table, in the order the table lists them. */
  function Codes(kind: DictionaryKind): seq<string> {
    match kind
    case PwsType => ["CWS", "TNCWS", "NTNCWS"]
    case PwsActivity => ["A", "I", "N", "M", "P"]
    case ViolationCategory => ["TT", "MRDL", "Other", "MCL", "MR", "MON", "RPT"]
    case ViolationStatus => ["Resolved", "Archived", "Addressed", "Unaddressed"]
    case PrimarySource => ["GW", "GWP", "SW", "SWP", "GU", "GUP"]
    case OwnerType => ["F", "L", "M", "N", "P", "S"]
    case WaterType => ["GW", "SW", "GU"]
    case Availability => ["E", "I", "P", "O", "S", "U"]
    case AreaType => ["TR", "CN", "ZC", "CT", "IR"]
    case Evaluation => ["M", "N", "R", "S", "X", "Z", "D"]
    case ResultSign => ["L", "E"]
    case RuleFamily => ["100", "200", "300", "400", "500"]
    case RuleCode => ["110", "111", "121", "122", "123", "130", "140", "210", "220", "230", "310",
                      "320", "330", "331", "332", "333", "340", "350", "410", "420", "430", "500"]
  }

  /** Exactly the listed codes have an entry, and no entry is the empty string. */
  lemma EntryFacts(kind: DictionaryKind, code: string)
    ensures Entry(kind, code).Some? <==> code in Codes(kind)
    ensures Entry(kind, code).Some? ==> Entry(kind, code).value != ""
  {
    match kind
    case PwsType => PwsTypeFacts(code);
    case PwsActivity => PwsActivityFacts(code);
    case ViolationCategory => ViolationCategoryFacts(code);
    case ViolationStatus => ViolationStatusFacts(code);
    case PrimarySource => PrimarySourceFacts(code);
    case OwnerType => OwnerTypeFacts(code);
    case WaterType => WaterTypeFacts(code);
    case Availability => AvailabilityFacts(code);
    case AreaType => AreaTypeFacts(code);
    case Evaluation => EvaluationFacts(code);
    case ResultSign => ResultSignFacts(code);
    case RuleFamily => RuleFamilyFacts(code);
    case RuleCode => RuleCodesListed(code); RuleCodesNonEmpty(code);
  }

  lemma PwsTypeFacts(code: string)
    ensures PwsTypeEntry(code).Some? <==> code in Codes(PwsType)
    ensures PwsTypeEntry(code).Some? ==> PwsTypeEntry(code).value != ""
    ensures code in Codes(PwsType) ==> code != [] && ('A' <= code[0] <= 'Z' || '0' <= code[0] <= '9')
  {
  }

  lemma PwsActivityFacts(code: string)
    ensures PwsActivityEntry(code).Some? <==> code in Codes(PwsActivity)
    ensures PwsActivityEntry(code).Some? ==> PwsActivityEntry(code).value != ""
    ensures code in Codes(PwsActivity) ==> code != [] && ('A' <= code[0] <= 'Z' || '0' <= code[0] <= '9')
  {
  }

  lemma ViolationCategoryFacts(code: string)
    ensures ViolationCategoryEntry(code).Some? <==> code in Codes(ViolationCategory)
    ensures ViolationCategoryEntry(code).Some? ==> ViolationCategoryEntry(code).value != ""
    ensures code in Codes(ViolationCategory) ==> code != [] && ('A' <= code[0] <= 'Z' || '0' <= code[0] <= '9')
  {
  }

  lemma ViolationStatusFacts(code: string)
    ensures ViolationStatusEntry(code).Some? <==> code in Codes(ViolationStatus)
    ensures ViolationStatusEntry(code).Some? ==> ViolationStatusEntry(code).value != ""
    ensures code in Codes(ViolationStatus) ==> code != [] && ('A' <= code[0] <= 'Z' || '0' <= code[0] <= '9')
  {
  }

  lemma PrimarySourceFacts(code: string)
    ensures PrimarySourceEntry(code).Some? <==> code in Codes(PrimarySource)
    ensures PrimarySourceEntry(code).Some? ==> PrimarySourceEntry(code).value != ""
    ensures code in Codes(PrimarySource) ==> code != [] && ('A' <= code[0] <= 'Z' || '0' <= code[0] <= '9')
  {
  }

  lemma OwnerTypeFacts(code: string)
    ensures OwnerTypeEntry(code).Some? <==> code in Codes(OwnerType)
    ensures OwnerTypeEntry(code).Some? ==> OwnerTypeEntry(code).value != ""
    ensures code in Codes(OwnerType) ==> code != [] && ('A' <= code[0] <= 'Z' || '0' <= code[0] <= '9')
  {
  }

  lemma WaterTypeFacts(code: string)
    ensures WaterTypeEntry(code).Some? <==> code in Codes(WaterType)
    ensures WaterTypeEntry(code).Some? ==> WaterTypeEntry(code).value != ""
    ensures code in Codes(WaterType) ==> code != [] && ('A' <= code[0] <= 'Z' || '0' <= code[0] <= '9')
  {
  }

  lemma AvailabilityFacts(code: string)
    ensures AvailabilityEntry(code).Some? <==> code in Codes(Availability)
    ensures AvailabilityEntry(code).Some? ==> AvailabilityEntry(code).value != ""
    ensures code in Codes(Availability) ==> code != [] && ('A' <= code[0] <= 'Z' || '0' <= code[0] <= '9')
  {
  }

  lemma AreaTypeFacts(code: string)
    ensures AreaTypeEntry(code).Some? <==> code in Codes(AreaType)
    ensures AreaTypeEntry(code).Some? ==> AreaTypeEntry(code).value != ""
    ensures code in Codes(AreaType) ==> code != [] && ('A' <= code[0] <= 'Z' || '0' <= code[0] <= '9')
  {
  }

  lemma EvaluationFacts(code: string)
    ensures EvaluationEntry(code).Some? <==> code in Codes(Evaluation)
    ensures EvaluationEntry(code).Some? ==> EvaluationEntry(code).value != ""
    ensures code in Codes(Evaluation) ==> code != [] && ('A' <= code[0] <= 'Z' || '0' <= code[0] <= '9')
  {
  }

  lemma ResultSignFacts(code: string)
    ensures ResultSignEntry(code).Some? <==> code in Codes(ResultSign)
    ensures ResultSignEntry(code).Some? ==> ResultSignEntry(code).value != ""
    ensures code in Codes(ResultSign) ==> code != [] && ('A' <= code[0] <= 'Z' || '0' <= code[0] <= '9')
  {
  }

  lemma RuleFamilyFacts(code: string)
    ensures RuleFamilyEntry(code).Some? <==> code in Codes(RuleFamily)
    ensures RuleFamilyEntry(code).Some? ==> RuleFamilyEntry(code).value != ""
    ensures code in Codes(RuleFamily) ==> code != [] && ('A' <= code[0] <= 'Z' || '0' <= code[0] <= '9')
  {
  }

  lemma RuleCodesListed(code: string)
    ensures RuleCodeEntry(code).Some? <==> code in Codes(RuleCode)
  {
  }

  lemma RuleCodesNonEmpty(code: string)
    ensures RuleCodeEntry(code).Some? ==> RuleCodeEntry(code).value != ""
  {
  }

  /** No table lists a code twice. */
  lemma CodesDistinct(kind: DictionaryKind)
    ensures Distinct(Codes(kind))
  {
    if kind == RuleCode {
      RuleCodesDistinct();
    }
  }

  lemma RuleCodesDistinct()
    ensures Distinct(Codes(RuleCode))
  {
  }

  /** `get*Description(code)`: `DATA_DICTIONARY.<table>[code] || 'Unknown'`. */
  function Description(kind: DictionaryKind, code: string): string {
    var e := Entry(kind, code);
    if e.Some? && e.value != "" then e.value else "Unknown"
  }

  /** A listed code gets its table entry, which is never empty; any other code gets `'Unknown'`. */
  lemma DescriptionMeaning(kind: DictionaryKind, code: string)
    ensures code in Codes(kind) ==>
      Entry(kind, code).Some? && Description(kind, code) == Entry(kind, code).value && Description(kind, code) != ""
    ensures code !in Codes(kind) ==> Description(kind, code) == "Unknown"
  {
    EntryFacts(kind, code);
  }

  /** The entries `(code, description)` for the given codes, in order. */
  function DescribeAll(kind: DictionaryKind, codes: seq<string>): (r: seq<(string, string)>)
    ensures Keys(r) == codes
    ensures forall e :: e in r ==> e.1 == Description(kind, e.0)
  {
    if codes == [] then [] else [(codes[0], Description(kind, codes[0]))] + DescribeAll(kind, codes[1..])
  }

  /**
   * `getAllDescriptions(type)`: the table as a record, one entry per listed code, each with the
   * description its lookup returns.
   */
  function AllDescriptions(kind: DictionaryKind): (r: seq<(string, string)>)
    ensures Keys(r) == Codes(kind) && DistinctKeys(r)
    ensures forall e :: e in r ==> Description(kind, e.0) == e.1
  {
    CodesDistinct(kind);
    DescribeAll(kind, Codes(kind))
  }

  /** `'U'` is listed as `'Unknown'`, so the description cannot tell it from an unlisted code. */
  lemma AvailabilityUnknownAmbiguous()
    ensures "U" in Codes(Availability) && "Q" !in Codes(Availability)
    ensures Description(Availability, "U") == Description(Availability, "Q") == "Unknown"
  {
  }

  /** Two rule codes share a description, so a rule description does not determine its code. */
  lemma RuleCodeDescriptionsNotInjective()
    ensures "330" != "333" && "330" in Codes(RuleCode) && "333" in Codes(RuleCode)
    ensures Description(RuleCode, "330") == Description(RuleCode, "333") == "Inorganic Chemicals"
  {
    assert Codes(RuleCode)[12] == "330" && Codes(RuleCode)[15] == "333";
    InorganicChemicals330();
    InorganicChemicals333();
  }

  lemma InorganicChemicals330()
    ensures Description(RuleCode, "330") == "Inorganic Chemicals"
  {
  }

  lemma InorganicChemicals333()
    ensures Description(RuleCode, "333") == "Inorganic Chemicals"
  {
  }

  const HealthBasedCategories: seq<string> := ["TT", "MRDL", "MCL"]

  /** `isHealthBasedViolation(category)`: `['TT', 'MRDL', 'MCL'].includes(category)`. */
  predicate IsHealthBasedViolation(category: string) {
    category in HealthBasedCategories
  }

  /** The health-based categories are exactly three codes of the violation-category table. */
  lemma HealthBasedAreCategories(category: string)
    ensures IsHealthBasedViolation(category) <==> category == "TT" || category == "MRDL" || category == "MCL"
    ensures IsHealthBasedViolation(category) ==> category in Codes(ViolationCategory)
  {
  }

  const Gray: string := "text-gray-600"

  /** `getViolationStatusColor(status)`. */
  function ViolationStatusColor(status: string): (color: string)
    ensures color == "text-green-600" <==> status == "Resolved"
    ensures color == "text-yellow-600" <==> status == "Addressed"
    ensures color == "text-red-600" <==> status == "Unaddressed"
    ensures color == Gray <==> status != "Resolved" && status != "Addressed" && status != "Unaddressed"
  {
    match status
    case "Resolved" => "text-green-600"
    case "Addressed" => "text-yellow-600"
    case "Unaddressed" => "text-red-600"
    case "Archived" => Gray
    case _ => Gray
  }

  /** Every status with a colour of its own is a status the dictionary describes; Archived is not one. */
  lemma StatusColorsAreStatuses(status: string)
    ensures ViolationStatusColor(status) != Gray ==> status in Codes(ViolationStatus)
    ensures ViolationStatusColor("Archived") == Gray
  {
  }

  /** `getEvaluationColor(code)`. */
  function EvaluationColor(code: string): (color: string)
    ensures color == "text-red-600" <==> code == "S" || code == "D"
    ensures color == "text-yellow-600" <==> code == "M"
    ensures color == "text-blue-600" <==> code == "R"
    ensures color == "text-green-600" <==> code == "N"
    ensures color == Gray <==> code != "S" && code != "D" && code != "M" && code != "R" && code != "N"
  {
    match code
    case "S" => "text-red-600"
    case "M" => "text-yellow-600"
    case "R" => "text-blue-600"
    case "N" => "text-green-600"
    case "D" => "text-red-600"
    case _ => Gray
  }

  /** The coloured codes are evaluation codes; the listed `X` and `Z` stay gray. */
  lemma EvaluationColorsAreEvaluations(code: string)
    ensures EvaluationColor(code) != Gray ==> code in Codes(Evaluation)
    ensures EvaluationColor("X") == Gray && EvaluationColor("Z") == Gray
  {
  }

  // ---------------------------------------------------------------------------------------------
  // Lookups through the prototype chain
  // ---------------------------------------------------------------------------------------------

  /** The properties every object literal inherits from `Object.prototype`. */
  const InheritedNames: seq<string> := [
    "constructor", "hasOwnProperty", "isPrototypeOf", "propertyIsEnumerable", "toString", "valueOf",
    "toLocaleString", "__proto__", "__defineGetter__", "__defineSetter__", "__lookupGetter__",
    "__lookupSetter__"]

  /** What an indexed read of a table can give: a string, or an inherited function or object. */
  datatype JsValue = Text(s: string) | InheritedMember(name: string)

  /**
   * The lookup as the code performs it: the index expression also finds inherited members, which
   * are truthy, so `|| 'Unknown'` does not replace them.
   */
  function DescriptionAsWritten(kind: DictionaryKind, code: string): (v: JsValue)
    ensures code !in InheritedNames ==> v == Text(Description(kind, code))
  {
    match Entry(kind, code)
    case Some(t) => if t != "" then Text(t) else Text("Unknown")
    case None => if code in InheritedNames then InheritedMember(code) else Text("Unknown")
  }

  /** Every listed code starts with an upper-case letter or a digit. */
  lemma CodesStartUpperOrDigit(kind: DictionaryKind, code: string)
    requires code in Codes(kind)
    ensures code != [] && ('A' <= code[0] <= 'Z' || '0' <= code[0] <= '9')
  {
    match kind
    case PwsType => PwsTypeFacts(code);
    case PwsActivity => PwsActivityFacts(code);
    case ViolationCategory => ViolationCategoryFacts(code);
    case ViolationStatus => ViolationStatusFacts(code);
    case PrimarySource => PrimarySourceFacts(code);
    case OwnerType => OwnerTypeFacts(code);
    case WaterType => WaterTypeFacts(code);
    case Availability => AvailabilityFacts(code);
    case AreaType => AreaTypeFacts(code);
    case Evaluation => EvaluationFacts(code);
    case ResultSign => ResultSignFacts(code);
    case RuleFamily => RuleFamilyFacts(code);
    case RuleCode => RuleCodesStartWithDigit(code);
  }

  lemma RuleCodesStartWithDigit(code: string)
    requires code in Codes(RuleCode)
    ensures code != [] && '0' <= code[0] <= '9'
  {
  }

  /** Every inherited name starts with a lower-case letter or `_`. */
  lemma InheritedStartLower(name: string)
    requires name in InheritedNames
    ensures name != [] && ('a' <= name[0] <= 'z' || name[0] == '_')
  {
  }

  /** No table lists an inherited name. */
  lemma InheritedNamesUnlisted(kind: DictionaryKind, code: string)
    requires code in InheritedNames
    ensures code !in Codes(kind) && Entry(kind, code).None?
  {
    InheritedStartLower(code);
    if code in Codes(kind) {
      CodesStartUpperOrDigit(kind, code);
    }
    EntryFacts(kind, code);
  }

  /**
   * The code as written and the intended own-entry lookup disagree exactly on the inherited names,
   * where the code returns a member of `Object.prototype` instead of `'Unknown'`.
   */
  lemma AsWrittenDiffersOnInherited(kind: DictionaryKind, code: string)
    ensures DescriptionAsWritten(kind, code) != Text(Description(kind, code)) <==> code in InheritedNames
    ensures code in InheritedNames ==>
      DescriptionAsWritten(kind, code) == InheritedMember(code) && Description(kind, code) == "Unknown"
  {
    if code in InheritedNames {
      InheritedNamesUnlisted(kind, code);
    }
  }

  /** `getPwsTypeDescription('toString')` returns `Object.prototype.toString`, not a string. */
  lemma InheritedNameIsNotText()
    ensures DescriptionAsWritten(PwsType, "toString") == InheritedMember("toString")
    ensures Description(PwsType, "toString") == "Unknown"
  {
    assert "toString" in InheritedNames;
  }
}
