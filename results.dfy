/** Test statuses, categories and the single result record of tests.py. */
module Results {

  datatype Status = Pass | Fail | Warn | Skip

  datatype Category =
    | Connectivity
    | DeviceDescription
    | ContentDirectory
    | ConnectionManager
    | Browsing
    | Metadata
    | MediaResources
    | ProtocolCompliance

  /** The enumeration value of a status. */
  function StatusValue(s: Status): string {
    match s
    case Pass => "PASS"
    case Fail => "FAIL"
    case Warn => "WARN"
    case Skip => "SKIP"
  }

  /** The enumeration value of a category: the key of the per-category summary. */
  function CategoryValue(c: Category): (v: string)
    ensures |v| > 0
  {
    match c
    case Connectivity => "Connectivity"
    case DeviceDescription => "Device Description"
    case ContentDirectory => "Content Directory"
    case ConnectionManager => "Connection Manager"
    case Browsing => "Browsing"
    case Metadata => "Metadata"
    case MediaResources => "Media Resources"
    case ProtocolCompliance => "Protocol Compliance"
  }

  /** Distinct categories have distinct values, so the summary keeps them apart. */
  lemma CategoryValueInjective(c: Category, d: Category)
    ensures CategoryValue(c) == CategoryValue(d) ==> c == d
  {
    if CategoryValue(c) == CategoryValue(d) {
      var v := CategoryValue(c);
      assert |v| == |CategoryValue(d)| && v[0] == CategoryValue(d)[0];
      if |v| > 8 { assert v[8] == CategoryValue(d)[8]; }
    }
  }

  /** One test result; the free-form `details` dictionary is not kept. */
  datatype TestResult = TestResult(name: string, category: Category, status: Status, message: string, weight: real)
  {
    predicate Passed() {
      status == Pass
    }

    /** The score contribution: the full weight on PASS, half on WARN, nothing otherwise. */
    function Score(): (s: real)
      ensures status == Pass ==> s == weight
      ensures status == Warn ==> s + s == weight
      ensures status == Fail || status == Skip ==> s == 0.0
      ensures weight >= 0.0 ==> 0.0 <= s <= weight
    {
      match status
      case Pass => weight
      case Warn => weight * 0.5
      case _ => 0.0
    }
  }
}
