/**
  The eight test phases of tests.py as functions from the tester's answers
  to the results each phase appends, in order. The answers stand for what
  the `DLNATester` returned during the run; the phases only judge them.
 */
module Phases {
  import opened Wrappers
  import opened Text
  import opened Xml
  import opened Didl
  import opened Tester
  import opened Results

  /** `browse(object_id, browse_flag, filter, starting_index, requested_count, sort_criteria)` of the tester. */
  type Browser = (string, string, string, int, int, string) -> Option<BrowseResult>

  /** The two browse flags of ContentDirectory:1 the suite uses. */
  const ChildrenFlag := "BrowseDirectChildren"
  const MetadataFlag := "BrowseMetadata"

  /** `_max_depth` of the suite. */
  const MaxDepth := 3

  /** The weights the phases use. */
  predicate StandardWeight(w: real) {
    w == 0.5 || w == 1.0 || w == 1.5 || w == 2.0
  }

  /** Every result belongs to `cat` and carries one of the standard weights. */
  predicate InCategory(rs: seq<TestResult>, cat: Category) {
    forall k :: 0 <= k < |rs| ==> rs[k].category == cat && StandardWeight(rs[k].weight)
  }

  /** Python truthiness of an optional string: present and non-empty. */
  predicate Truthy(s: Option<string>) {
    s.Some? && s.value != ""
  }

  // ---------------------------------------------------------------------
  // Connectivity
  // ---------------------------------------------------------------------

  /** `_run_connectivity_tests`: the root GET, then discovery of the device description. */
  function ConnectivityResults(root: Reply, descriptionUrl: Option<string>): (rs: seq<TestResult>)
    ensures |rs| == (if root.Raised? then 1 else 2)
    ensures rs[0].name == "HTTP Connection" && (rs[0].status == Pass <==> root.Response?)
  {
    match root
    case Raised(e) =>
      [TestResult("HTTP Connection", Connectivity, Fail, "Failed to connect: " + e, 2.0)]
    case Response(status, _, _) =>
      [TestResult("HTTP Connection", Connectivity, Pass, "Server responded with status " + IntToString(status), 2.0),
       if Truthy(descriptionUrl) then
         TestResult("Device Description Discovery", Connectivity, Pass,
                    "Found device description at " + descriptionUrl.value, 2.0)
       else
         TestResult("Device Description Discovery", Connectivity, Fail, "Could not find device description XML", 2.0)]
  }

  /** A root GET that raises gives one FAIL and no discovery result; any response gives a PASS and a discovery verdict. */
  lemma ConnectivityVerdicts(root: Reply, descriptionUrl: Option<string>)
    ensures var rs := ConnectivityResults(root, descriptionUrl);
            && InCategory(rs, Connectivity)
            && (root.Raised? ==> |rs| == 1 && rs[0].name == "HTTP Connection" && rs[0].status == Fail && rs[0].weight == 2.0)
            && (root.Response? ==> |rs| == 2 && rs[0].status == Pass
                                   && rs[1].name == "Device Description Discovery"
                                   && (rs[1].status == Pass <==> Truthy(descriptionUrl)))
  {
  }

  // ---------------------------------------------------------------------
  // Device description
  // ---------------------------------------------------------------------

  /** The four fields every MediaServer must describe, in the order they are checked. */
  function RequiredFields(d: DeviceInfo): seq<(string, string)> {
    [("friendlyName", d.friendlyName), ("manufacturer", d.manufacturer), ("modelName", d.modelName), ("UDN", d.udn)]
  }

  /** A present value is shown cut to 50 characters followed by "...". */
  function Shown(value: string): string {
    if |value| > 50 then value[..50] + "..." else value
  }

  function FieldResult(field: (string, string)): (r: TestResult)
    ensures r.status == Pass <==> field.1 != ""
    ensures r.status == Fail <==> field.1 == ""
  {
    if field.1 != "" then
      TestResult("Required Field: " + field.0, DeviceDescription, Pass, field.0 + " present: " + Shown(field.1), 1.0)
    else
      TestResult("Required Field: " + field.0, DeviceDescription, Fail, "Missing required field: " + field.0, 1.0)
  }

  function FieldResults(fields: seq<(string, string)>): (rs: seq<TestResult>)
    ensures |rs| == |fields| && forall k :: 0 <= k < |fields| ==> rs[k] == FieldResult(fields[k])
  {
    seq(|fields|, k requires 0 <= k < |fields| => FieldResult(fields[k]))
  }

  predicate OffersService(d: DeviceInfo, kind: string) {
    exists k :: 0 <= k < |d.services| && Contains(d.services[k].serviceType, kind)
  }

  /** The verdicts after the required fields: UDN format, both services and the icons. */
  function DeviceTail(d: DeviceInfo): seq<TestResult> {
    [UdnResult(d), ContentDirectoryServiceResult(d), ConnectionManagerServiceResult(d), IconsResult(d)]
  }

  function UdnResult(d: DeviceInfo): (r: TestResult)
    ensures r.name == "UDN Format" && r.category == DeviceDescription && r.weight == 1.0
    ensures r.status == Pass <==> StartsWith(d.udn, "uuid:")
    ensures r.status == Warn <==> !StartsWith(d.udn, "uuid:")
  {
    if StartsWith(d.udn, "uuid:") then
      TestResult("UDN Format", DeviceDescription, Pass, "UDN follows uuid: format", 1.0)
    else
      TestResult("UDN Format", DeviceDescription, Warn, "UDN does not follow uuid: format: " + d.udn, 1.0)
  }

  function ContentDirectoryServiceResult(d: DeviceInfo): (r: TestResult)
    ensures r.category == DeviceDescription && r.weight == 2.0
    ensures r.status == Pass <==> OffersService(d, "ContentDirectory")
    ensures r.status == Fail <==> !OffersService(d, "ContentDirectory")
  {
    if OffersService(d, "ContentDirectory") then
      TestResult("ContentDirectory Service", DeviceDescription, Pass, "ContentDirectory service present", 2.0)
    else
      TestResult("ContentDirectory Service", DeviceDescription, Fail,
                 "ContentDirectory service missing (required for DLNA DMS)", 2.0)
  }

  function ConnectionManagerServiceResult(d: DeviceInfo): (r: TestResult)
    ensures r.category == DeviceDescription && r.weight == 1.5
    ensures r.status == Pass <==> OffersService(d, "ConnectionManager")
    ensures r.status == Warn <==> !OffersService(d, "ConnectionManager")
  {
    if OffersService(d, "ConnectionManager") then
      TestResult("ConnectionManager Service", DeviceDescription, Pass, "ConnectionManager service present", 1.5)
    else
      TestResult("ConnectionManager Service", DeviceDescription, Warn, "ConnectionManager service missing (recommended)", 1.5)
  }

  function IconsResult(d: DeviceInfo): (r: TestResult)
    ensures r.name == "Device Icons" && r.category == DeviceDescription && r.weight == 1.0
    ensures r.status == Pass <==> |d.icons| > 0
    ensures r.status == Warn <==> |d.icons| == 0
  {
    if |d.icons| > 0 then
      TestResult("Device Icons", DeviceDescription, Pass, "Device has " + IntToString(|d.icons|) + " icon(s)", 1.0)
    else
      TestResult("Device Icons", DeviceDescription, Warn, "No device icons defined (recommended for better UX)", 1.0)
  }

  function DeviceTypeResult(d: DeviceInfo): (r: TestResult)
    ensures r.name == "Device Type" && (r.status == Pass <==> Contains(d.deviceType, "MediaServer"))
    ensures r.status == Warn <==> !Contains(d.deviceType, "MediaServer")
  {
    if Contains(d.deviceType, "MediaServer") then
      TestResult("Device Type", DeviceDescription, Pass, "Device type: " + d.deviceType, 1.0)
    else
      TestResult("Device Type", DeviceDescription, Warn, "Non-standard device type: " + d.deviceType, 1.0)
  }

  /** `_run_device_description_tests` on what `fetch_device_description` returned. */
  function DeviceResults(device: Option<DeviceInfo>): (rs: seq<TestResult>)
    ensures |rs| == (if device.None? then 1 else 9)
  {
    match device
    case None => [TestResult("Device Description Parsing", DeviceDescription, Fail, "Could not parse device description", 2.0)]
    case Some(d) => [DeviceTypeResult(d)] + FieldResults(RequiredFields(d)) + DeviceTail(d)
  }

  /** A parsed device gets nine results: the type, the four required fields, the UDN format, both services and the icons. */
  lemma DeviceLayout(d: DeviceInfo)
    ensures var rs := DeviceResults(Some(d));
            && |rs| == 9 && rs[0] == DeviceTypeResult(d)
            && rs[1..5] == FieldResults(RequiredFields(d)) && rs[5..] == DeviceTail(d)
  {
    var rs := DeviceResults(Some(d));
    var fs := FieldResults(RequiredFields(d));
    assert rs == [DeviceTypeResult(d)] + fs + DeviceTail(d);
    assert rs[1..5] == fs;
  }

  /** Exactly four required-field results, each PASS iff its field is non-empty and FAIL otherwise. */
  lemma RequiredFieldVerdicts(d: DeviceInfo)
    ensures var rs := DeviceResults(Some(d));
            && |rs| == 9
            && forall k :: 1 <= k < 5 ==>
                 && rs[k].name == "Required Field: " + RequiredFields(d)[k - 1].0
                 && (rs[k].status == Pass <==> RequiredFields(d)[k - 1].1 != "")
                 && (rs[k].status == Fail <==> RequiredFields(d)[k - 1].1 == "")
  {
    DeviceLayout(d);
    var rs := DeviceResults(Some(d));
    forall k | 1 <= k < 5
      ensures rs[k] == FieldResult(RequiredFields(d)[k - 1])
    {
      assert rs[k] == rs[1..5][k - 1];
    }
  }

  /** ContentDirectory is PASS/FAIL at weight 2.0 and ConnectionManager PASS/WARN at weight 1.5. */
  lemma ServiceVerdicts(d: DeviceInfo)
    ensures var rs := DeviceResults(Some(d));
            && |rs| == 9
            && rs[6].weight == 2.0 && (rs[6].status == Pass <==> OffersService(d, "ContentDirectory"))
            && (rs[6].status == Pass || rs[6].status == Fail)
            && rs[7].weight == 1.5 && (rs[7].status == Pass <==> OffersService(d, "ConnectionManager"))
            && (rs[7].status == Pass || rs[7].status == Warn)
  {
    DeviceLayout(d);
    var rs := DeviceResults(Some(d));
    assert rs[6] == rs[5..][1] && rs[7] == rs[5..][2];
  }

  lemma FieldsInCategory(fields: seq<(string, string)>)
    ensures InCategory(FieldResults(fields), DeviceDescription)
  {
  }

  lemma TailInCategory(d: DeviceInfo)
    ensures InCategory(DeviceTail(d), DeviceDescription)
  {
    InCategoryFour(UdnResult(d), ContentDirectoryServiceResult(d), ConnectionManagerServiceResult(d), IconsResult(d),
                   DeviceDescription);
  }

  lemma InCategoryFour(a: TestResult, b: TestResult, c: TestResult, e: TestResult, cat: Category)
    requires a.category == cat && b.category == cat && c.category == cat && e.category == cat
    requires StandardWeight(a.weight) && StandardWeight(b.weight) && StandardWeight(c.weight) && StandardWeight(e.weight)
    ensures InCategory([a, b, c, e], cat)
  {
  }

  lemma DeviceInCategory(device: Option<DeviceInfo>)
    ensures InCategory(DeviceResults(device), DeviceDescription)
  {
    if device.Some? {
      var d := device.value;
      var fs := FieldResults(RequiredFields(d));
      FieldsInCategory(RequiredFields(d));
      TailInCategory(d);
      InCategoryAppend([DeviceTypeResult(d)], fs, DeviceDescription);
      InCategoryAppend([DeviceTypeResult(d)] + fs, DeviceTail(d), DeviceDescription);
    }
  }

  /** A device description that does not parse gives a single FAIL. */
  lemma UnparsedDeviceFails()
    ensures DeviceResults(None) == [TestResult("Device Description Parsing", DeviceDescription, Fail,
                                               "Could not parse device description", 2.0)]
  {
  }

  // ---------------------------------------------------------------------
  // Content Directory
  // ---------------------------------------------------------------------

  /** What the tester answered for the ContentDirectory phase. */
  datatype ContentDirectoryAnswers = ContentDirectoryAnswers(
    available: bool,              // `_content_directory is not None`
    scpdRetrieved: bool,          // `fetch_service_description(cd)`
    actions: seq<string>,         // `cd.actions` afterwards
    searchCaps: Option<string>,
    sortCaps: Option<string>,
    updateId: Option<int>)

  const RequiredActions: seq<string> := [BrowseAction, SearchCapsAction, SortCapsAction, UpdateIdAction]
  const OptionalActions: seq<string> := [SearchAction, "CreateObject", "DestroyObject", "UpdateObject"]

  function RequiredActionResult(action: string, actions: seq<string>): TestResult {
    if action in actions then
      TestResult("Action: " + action, ContentDirectory, Pass, action + " action available", 1.0)
    else
      TestResult("Action: " + action, ContentDirectory, Fail, "Required action " + action + " not found", 1.0)
  }

  function RequiredActionResults(wanted: seq<string>, actions: seq<string>): (rs: seq<TestResult>)
    ensures |rs| == |wanted| && forall k :: 0 <= k < |wanted| ==> rs[k] == RequiredActionResult(wanted[k], actions)
  {
    seq(|wanted|, k requires 0 <= k < |wanted| => RequiredActionResult(wanted[k], actions))
  }

  /** A PASS at weight 0.5 for each of `wanted` that is offered, in order; nothing for the others. */
  function OptionalActionResults(wanted: seq<string>, actions: seq<string>): seq<TestResult>
    decreases |wanted|
  {
    if wanted == [] then []
    else
      var a := wanted[|wanted| - 1];
      OptionalActionResults(wanted[..|wanted| - 1], actions)
      + (if a in actions then [TestResult("Optional Action: " + a, ContentDirectory, Pass, a + " action available", 0.5)]
         else [])
  }

  /** The offered actions among `wanted`, in order. */
  function Offered(wanted: seq<string>, actions: seq<string>): (o: seq<string>)
    ensures |o| <= |wanted|
    decreases |wanted|
  {
    if wanted == [] then []
    else Offered(wanted[..|wanted| - 1], actions) + (if wanted[|wanted| - 1] in actions then [wanted[|wanted| - 1]] else [])
  }

  /** Optional actions give exactly one PASS at weight 0.5 per offered action and nothing for an absent one. */
  lemma {:induction false} OptionalActionsOnlyWhenOffered(wanted: seq<string>, actions: seq<string>)
    ensures var rs, o := OptionalActionResults(wanted, actions), Offered(wanted, actions);
            && |rs| == |o|
            && forall k :: 0 <= k < |rs| ==>
                 rs[k] == TestResult("Optional Action: " + o[k], ContentDirectory, Pass, o[k] + " action available", 0.5)
    ensures (forall k :: 0 <= k < |wanted| ==> wanted[k] !in actions) ==> OptionalActionResults(wanted, actions) == []
    decreases |wanted|
  {
    if wanted != [] {
      var init := wanted[..|wanted| - 1];
      OptionalActionsOnlyWhenOffered(init, actions);
      assert forall k :: 0 <= k < |init| ==> init[k] == wanted[k];
    }
  }

  /** The message of a capabilities result: cut to 100 characters, "(empty)" when there are none. */
  function CapsShown(caps: string): string {
    if caps != "" && |caps| > 100 then caps[..100] + "..." else if caps == "" then "(empty)" else caps
  }

  function CapabilitiesResult(action: string, kind: string, caps: Option<string>): (r: TestResult)
    ensures r.name == action && (r.status == Pass <==> caps.Some?) && (r.status == Fail <==> caps.None?)
  {
    if caps.Some? then
      TestResult(action, ContentDirectory, Pass, kind + " capabilities: " + CapsShown(caps.value), 1.0)
    else
      TestResult(action, ContentDirectory, Fail, action + " action failed", 1.0)
  }

  function UpdateIdResult(updateId: Option<int>): (r: TestResult)
    ensures r.name == UpdateIdAction && (r.status == Pass <==> updateId.Some?) && (r.status == Fail <==> updateId.None?)
  {
    if updateId.Some? then
      TestResult(UpdateIdAction, ContentDirectory, Pass, "System update ID: " + IntToString(updateId.value), 1.0)
    else
      TestResult(UpdateIdAction, ContentDirectory, Fail, "GetSystemUpdateID action failed", 1.0)
  }

  function ScpdResult(a: ContentDirectoryAnswers): (r: TestResult)
    ensures r.name == "SCPD Retrieval" && (r.status == Pass <==> a.scpdRetrieved) && (r.status == Fail <==> !a.scpdRetrieved)
  {
    if a.scpdRetrieved then
      TestResult("SCPD Retrieval", ContentDirectory, Pass, "Retrieved SCPD with " + IntToString(|a.actions|) + " actions", 1.0)
    else
      TestResult("SCPD Retrieval", ContentDirectory, Fail, "Could not retrieve Service Control Protocol Description", 1.0)
  }

  /** `_run_content_directory_tests`. */
  function ContentDirectoryResults(a: ContentDirectoryAnswers): (rs: seq<TestResult>)
    ensures |rs| >= 1 && (rs[0].status == Skip <==> !a.available)
    ensures a.available ==> |rs| >= 1 + |RequiredActions| + 3
  {
    if !a.available then
      [TestResult("Content Directory Available", ContentDirectory, Skip, "ContentDirectory service not available", 1.0)]
    else
      [ScpdResult(a)]
      + RequiredActionResults(RequiredActions, a.actions)
      + OptionalActionResults(OptionalActions, a.actions)
      + [CapabilitiesResult(SearchCapsAction, "Search", a.searchCaps),
         CapabilitiesResult(SortCapsAction, "Sort", a.sortCaps),
         UpdateIdResult(a.updateId)]
  }

  lemma {:induction false} OptionalActionsInCategory(wanted: seq<string>, actions: seq<string>)
    ensures InCategory(OptionalActionResults(wanted, actions), ContentDirectory)
  {
    OptionalActionsOnlyWhenOffered(wanted, actions);
  }

  /**
    Without the service the phase is one SKIP. With it, the four required
    actions each give PASS iff offered and FAIL otherwise, and the optional
    ones add between none and four results.
   */
  lemma ContentDirectoryVerdicts(a: ContentDirectoryAnswers)
    ensures var rs := ContentDirectoryResults(a);
            && (!a.available ==> |rs| == 1 && rs[0].status == Skip)
            && (a.available ==>
                  && 8 <= |rs| <= 12
                  && (forall k :: 1 <= k < 5 ==>
                        && (rs[k].status == Pass <==> RequiredActions[k - 1] in a.actions)
                        && (rs[k].status == Fail <==> RequiredActions[k - 1] !in a.actions))
                  && rs[|rs| - 1].name == UpdateIdAction
                  && (rs[|rs| - 1].status == Pass <==> a.updateId.Some?))
  {
    if a.available {
      var req := RequiredActionResults(RequiredActions, a.actions);
      var opt := OptionalActionResults(OptionalActions, a.actions);
      OptionalActionsOnlyWhenOffered(OptionalActions, a.actions);
      var tail := [CapabilitiesResult(SearchCapsAction, "Search", a.searchCaps),
                   CapabilitiesResult(SortCapsAction, "Sort", a.sortCaps),
                   UpdateIdResult(a.updateId)];
      var rs := ContentDirectoryResults(a);
      assert rs == [ScpdResult(a)] + req + opt + tail;
      assert rs[|rs| - 1] == tail[2];
      forall k | 1 <= k < 5
        ensures rs[k] == RequiredActionResult(RequiredActions[k - 1], a.actions)
      {
        assert rs[k] == req[k - 1];
      }
    }
  }

  lemma ContentDirectoryInCategory(a: ContentDirectoryAnswers)
    ensures InCategory(ContentDirectoryResults(a), ContentDirectory)
  {
    if a.available {
      var req := RequiredActionResults(RequiredActions, a.actions);
      var opt := OptionalActionResults(OptionalActions, a.actions);
      OptionalActionsInCategory(OptionalActions, a.actions);
      var tail := [CapabilitiesResult(SearchCapsAction, "Search", a.searchCaps),
                   CapabilitiesResult(SortCapsAction, "Sort", a.sortCaps),
                   UpdateIdResult(a.updateId)];
      var rs := ContentDirectoryResults(a);
      assert rs == [ScpdResult(a)] + req + opt + tail;
      forall k | 0 <= k < |rs|
        ensures rs[k].category == ContentDirectory && StandardWeight(rs[k].weight)
      {
        if 1 <= k < 5 {
          assert rs[k] == req[k - 1];
        } else if 5 <= k < 5 + |opt| {
          assert rs[k] == opt[k - 5];
        }
      }
    }
  }

  // ---------------------------------------------------------------------
  // Connection Manager
  // ---------------------------------------------------------------------

  datatype ConnectionManagerAnswers = ConnectionManagerAnswers(
    available: bool,          // `_connection_manager is not None`
    scpdRetrieved: bool,      // `fetch_service_description(cm)`
    actions: seq<string>,     // `cm.actions` afterwards
    source: Option<string>)   // the Source of `get_protocol_info()`

  /** `source.split(",") if source else []`. */
  function Protocols(source: string): (ps: seq<string>)
    ensures source == "" ==> ps == []
    ensures source != "" ==> Join(ps, ",") == source
  {
    if source == "" then [] else JoinSplit(source, ','); Split(source, ',')
  }

  predicate AdvertisesHttpGet(protocols: seq<string>) {
    exists k :: 0 <= k < |protocols| && Contains(Lower(protocols[k]), "http-get")
  }

  /** `_run_connection_manager_tests`. */
  function ConnectionManagerResults(a: ConnectionManagerAnswers): (rs: seq<TestResult>)
    ensures |rs| == (if !a.available then 1 else if a.source.None? then 2 else 3)
    ensures rs[0].status == Skip <==> !a.available
  {
    if !a.available then
      [TestResult("Connection Manager Available", ConnectionManager, Skip, "ConnectionManager service not available", 1.0)]
    else
      [CmScpdResult(a)] + ProtocolInfoResults(a.source)
  }

  function CmScpdResult(a: ConnectionManagerAnswers): (r: TestResult)
    ensures r.name == "CM SCPD Retrieval" && (r.status == Pass <==> a.scpdRetrieved) && (r.status == Fail <==> !a.scpdRetrieved)
  {
    if a.scpdRetrieved then
      TestResult("CM SCPD Retrieval", ConnectionManager, Pass, "Retrieved SCPD with " + IntToString(|a.actions|) + " actions", 1.0)
    else
      TestResult("CM SCPD Retrieval", ConnectionManager, Fail, "Could not retrieve ConnectionManager SCPD", 1.0)
  }

  /** The GetProtocolInfo verdict, and the streaming verdict on the Source protocols when it answered. */
  function ProtocolInfoResults(source: Option<string>): seq<TestResult> {
    match source
    case None => [TestResult("GetProtocolInfo", ConnectionManager, Fail, "GetProtocolInfo action failed", 1.0)]
    case Some(s) =>
      var ps := Protocols(s);
      [TestResult("GetProtocolInfo", ConnectionManager, Pass, "Source protocols: " + IntToString(|ps|) + " defined", 1.0),
       if AdvertisesHttpGet(ps) then
         TestResult("HTTP Streaming Protocol", ConnectionManager, Pass, "http-get protocol supported", 1.0)
       else
         TestResult("HTTP Streaming Protocol", ConnectionManager, Warn, "http-get protocol not advertised", 1.0)]
  }

  /** The streaming verdict is given only when GetProtocolInfo answered, and is the last result then. */
  lemma ConnectionManagerVerdicts(a: ConnectionManagerAnswers)
    ensures var rs := ConnectionManagerResults(a);
            && InCategory(rs, ConnectionManager)
            && (!a.available ==> |rs| == 1 && rs[0].status == Skip)
            && (a.available && a.source.None? ==> |rs| == 2 && rs[1].status == Fail)
            && (a.available && a.source.Some? ==>
                  |rs| == 3 && rs[1].status == Pass
                  && (rs[2].status == Pass <==> AdvertisesHttpGet(Protocols(a.source.value))))
  {
  }

  // ---------------------------------------------------------------------
  // Browsing
  // ---------------------------------------------------------------------

  /** What a phase appends and the media objects it adds to `_browsed_items`. */
  datatype Outcome = Outcome(results: seq<TestResult>, browsed: seq<MediaItem>)

  /** `[i for i in items if i.is_container]`. */
  function Containers(items: seq<MediaItem>): (cs: seq<MediaItem>)
    ensures |cs| <= |items|
    ensures forall k :: 0 <= k < |cs| ==> cs[k].isContainer && cs[k] in items
    decreases |items|
  {
    if items == [] then []
    else Containers(items[..|items| - 1]) + (if items[|items| - 1].isContainer then [items[|items| - 1]] else [])
  }

  /** Every container among the items is kept. */
  lemma {:induction false} ContainersComplete(items: seq<MediaItem>)
    ensures forall m :: m in Containers(items) <==> m in items && m.isContainer
    decreases |items|
  {
    if items != [] {
      ContainersComplete(items[..|items| - 1]);
      assert items == items[..|items| - 1] + [items[|items| - 1]];
    }
  }

  /** The containers of a concatenation are those of each part, in order. */
  lemma {:induction false} ContainersAppend(a: seq<MediaItem>, b: seq<MediaItem>)
    ensures Containers(a + b) == Containers(a) + Containers(b)
    decreases |b|
  {
    if b == [] {
      assert a + b == a;
    } else {
      var init := b[..|b| - 1];
      assert (a + b)[..|a + b| - 1] == a + init;
      assert (a + b)[|a + b| - 1] == b[|b| - 1];
      ContainersAppend(a, init);
    }
  }

  /** `browse(id, DirectChildren)` with the default filter, window and sort. */
  function Children(browse: Browser, id: string): Option<BrowseResult> {
    browse(id, ChildrenFlag, "*", 0, 100, "")
  }

  /** The FAIL a failed browse of `container` records. */
  function NavigationFailed(container: MediaItem): (t: TestResult)
    ensures t.name == "Container Navigation" && t.category == Browsing && t.status == Fail
  {
    TestResult("Container Navigation", Browsing, Fail,
               "Failed to browse container '" + container.title + "' (ID: " + container.id + ")", 1.0)
  }

  /** The PASS the first successful container browse records. */
  function NavigationPassed(container: MediaItem, r: BrowseResult): (t: TestResult)
    ensures t.name == "Container Navigation" && t.category == Browsing && t.status == Pass
  {
    TestResult("Container Navigation", Browsing, Pass,
               "Successfully browsed container '" + container.title + "' ("
               + IntToString(r.numberReturned) + " items)", 1.0)
  }

  /** `_test_recursive_browse(container, depth)`. */
  function RecursiveBrowse(browse: Browser, container: MediaItem, depth: int): (o: Outcome)
    ensures |o.results| <= (if depth <= 1 then 2 else 1)
    ensures forall k :: 0 <= k < |o.results| ==> o.results[k].name == "Container Navigation"
    decreases MaxDepth + 1 - depth
  {
    if depth > MaxDepth then Outcome([], [])
    else
      match Children(browse, container.id)
      case None => Outcome([NavigationFailed(container)], [])
      case Some(r) =>
        var own := if depth == 1 then [NavigationPassed(container, r)] else [];
        var subs := Containers(r.items);
        var deeper := if subs != [] && depth < MaxDepth then RecursiveBrowse(browse, subs[0], depth + 1) else Outcome([], []);
        Outcome(own + deeper.results, r.items + deeper.browsed)
  }

  /** The containers `_test_recursive_browse` browses, from `container` down through each first sub-container. */
  function Descent(browse: Browser, container: MediaItem, depth: int): seq<MediaItem>
    decreases MaxDepth + 1 - depth
  {
    if depth > MaxDepth then []
    else
      [container]
      + match Children(browse, container.id)
        case None => []
        case Some(r) =>
          var subs := Containers(r.items);
          if subs != [] && depth < MaxDepth then Descent(browse, subs[0], depth + 1) else []
  }

  /** The items the browses of `path` returned, concatenated; a failed browse adds none. */
  function Returned(browse: Browser, path: seq<MediaItem>): seq<MediaItem>
    decreases |path|
  {
    if path == [] then []
    else
      (match Children(browse, path[0].id) case None => [] case Some(r) => r.items)
      + Returned(browse, path[1..])
  }

  /**
    The descent never goes deeper than `_max_depth`: starting at depth `d` it
    browses at most `MaxDepth + 1 - d` containers. Each step follows the first
    sub-container of the previous successful browse.
   */
  lemma {:induction false} DescentBounded(browse: Browser, container: MediaItem, depth: int)
    requires 1 <= depth <= MaxDepth + 1
    ensures var p := Descent(browse, container, depth);
            && |p| <= MaxDepth + 1 - depth
            && (depth <= MaxDepth ==> |p| > 0 && p[0] == container)
            && forall k :: 0 <= k < |p| - 1 ==>
                 Children(browse, p[k].id).Some?
                 && Containers(Children(browse, p[k].id).value.items) != []
                 && p[k + 1] == Containers(Children(browse, p[k].id).value.items)[0]
    decreases MaxDepth + 1 - depth
  {
    if depth <= MaxDepth {
      var p := Descent(browse, container, depth);
      match Children(browse, container.id)
      case None =>
        assert p == [container];
      case Some(r) =>
        var subs := Containers(r.items);
        if subs != [] && depth < MaxDepth {
          var q := Descent(browse, subs[0], depth + 1);
          DescentBounded(browse, subs[0], depth + 1);
          assert p == [container] + q;
          forall k | 0 <= k < |p| - 1
            ensures Children(browse, p[k].id).Some?
                    && Containers(Children(browse, p[k].id).value.items) != []
                    && p[k + 1] == Containers(Children(browse, p[k].id).value.items)[0]
          {
            if k > 0 {
              assert p[k] == q[k - 1] && p[k + 1] == q[k];
            }
          }
        } else {
          assert p == [container];
        }
    }
  }

  /** Every successful browse of the descent adds exactly the items it returned, in descent order. */
  lemma {:induction false} RecursiveBrowseCollects(browse: Browser, container: MediaItem, depth: int)
    ensures RecursiveBrowse(browse, container, depth).browsed == Returned(browse, Descent(browse, container, depth))
    decreases MaxDepth + 1 - depth
  {
    if depth <= MaxDepth {
      match Children(browse, container.id)
      case None =>
        ReturnedCons(browse, container, []);
      case Some(r) =>
        var subs := Containers(r.items);
        if subs != [] && depth < MaxDepth {
          RecursiveBrowseCollects(browse, subs[0], depth + 1);
          ReturnedCons(browse, container, Descent(browse, subs[0], depth + 1));
        } else {
          ReturnedCons(browse, container, []);
        }
    }
  }

  lemma ReturnedCons(browse: Browser, c: MediaItem, rest: seq<MediaItem>)
    ensures Returned(browse, [c] + rest)
            == (match Children(browse, c.id) case None => [] case Some(r) => r.items) + Returned(browse, rest)
  {
    assert ([c] + rest)[1..] == rest;
  }

  /** Every navigation verdict of the descent: one at depth 1, then at most one FAIL from deeper down. */
  lemma {:induction false} NavigationVerdicts(browse: Browser, container: MediaItem, depth: int)
    requires depth >= 1
    ensures var rs := RecursiveBrowse(browse, container, depth).results;
            && InCategory(rs, Browsing)
            && (forall k :: 0 <= k < |rs| ==> rs[k].name == "Container Navigation")
            && (depth == 1 ==> 1 <= |rs| <= 2)
            && (depth > 1 ==> |rs| <= 1 && forall k :: 0 <= k < |rs| ==> rs[k].status == Fail)
    decreases MaxDepth + 1 - depth
  {
    if depth <= MaxDepth {
      match Children(browse, container.id)
      case None =>
      case Some(r) =>
        var subs := Containers(r.items);
        if subs != [] && depth < MaxDepth {
          NavigationVerdicts(browse, subs[0], depth + 1);
        }
    }
  }

  function PaginationResult(page: Option<BrowseResult>): (r: TestResult)
    ensures r.name == "Pagination Support"
    ensures r.status == Pass <==> page.Some? && page.value.numberReturned == 1
    ensures r.status == Warn <==> !(page.Some? && page.value.numberReturned == 1)
  {
    if page.Some? && page.value.numberReturned == 1 then
      TestResult("Pagination Support", Browsing, Pass, "Pagination (RequestedCount) works correctly", 1.0)
    else
      TestResult("Pagination Support", Browsing, Warn, "Pagination may not work correctly", 1.0)
  }

  /** The verdicts after a successful root browse returned `root`. */
  function AfterRoot(browse: Browser, root: BrowseResult): Outcome {
    var meta := browse("0", MetadataFlag, "*", 0, 100, "");
    var metaResult := if meta.Some? then TestResult("Browse Metadata", Browsing, Pass, "BrowseMetadata for root successful", 1.0)
                      else TestResult("Browse Metadata", Browsing, Fail, "BrowseMetadata for root failed", 1.0);
    var pagination := if root.totalMatches > 1 then [PaginationResult(browse("0", ChildrenFlag, "*", 0, 1, ""))] else [];
    var nav := Navigation(browse, root.items);
    Outcome([metaResult] + pagination + nav.results, nav.browsed)
  }

  /** The descent into the first container of the root, or a WARN when the root has none. */
  function Navigation(browse: Browser, items: seq<MediaItem>): Outcome {
    var cs := Containers(items);
    if cs != [] then RecursiveBrowse(browse, cs[0], 1)
    else Outcome([TestResult("Container Navigation", Browsing, Warn,
                             "No containers found in root to test navigation", 1.0)], [])
  }

  /** `_run_browsing_tests`. */
  function BrowsingResults(available: bool, browse: Browser): (o: Outcome)
    ensures |o.results| >= 1 && o.results[0].name == "Browse Root"
    ensures o.results[0].status == Pass <==> available && Children(browse, "0").Some?
  {
    if !available then
      Outcome([TestResult("Browse Root", Browsing, Skip, "ContentDirectory not available", 1.0)], [])
    else
      match Children(browse, "0")
      case None => Outcome([TestResult("Browse Root", Browsing, Fail, "Browse action failed for root container", 2.0)], [])
      case Some(root) =>
        var rest := AfterRoot(browse, root);
        Outcome([TestResult("Browse Root", Browsing, Pass,
                            "Root browse returned " + IntToString(root.numberReturned) + " items, "
                            + IntToString(root.totalMatches) + " total", 2.0)] + rest.results,
                root.items + rest.browsed)
  }

  /**
    A failed root browse stops the phase with one FAIL at weight 2.0 and
    browses nothing else. Pagination is judged only when more than one object
    matches, and then PASS exactly when the one-object page returns one object.
   */
  lemma BrowsingVerdicts(available: bool, browse: Browser)
    ensures var o := BrowsingResults(available, browse);
            && (!available ==> o.results[0].status == Skip && |o.results| == 1 && o.browsed == [])
            && (available && Children(browse, "0").None? ==>
                  |o.results| == 1 && o.results[0].status == Fail && o.results[0].weight == 2.0 && o.browsed == [])
            && (available && Children(browse, "0").Some? ==>
                  var root := Children(browse, "0").value;
                  && o.results[0].status == Pass && |o.results| >= 3
                  && o.browsed[..|root.items|] == root.items
                  && (root.totalMatches > 1 ==>
                        o.results[2] == PaginationResult(browse("0", ChildrenFlag, "*", 0, 1, "")))
                  && (root.totalMatches <= 1 ==> o.results[2].name == "Container Navigation"))
  {
    if available && Children(browse, "0").Some? {
      var root := Children(browse, "0").value;
      var cs := Containers(root.items);
      if cs != [] {
        NavigationVerdicts(browse, cs[0], 1);
      }
      var o := BrowsingResults(available, browse);
      assert o.browsed[..|root.items|] == root.items;
    }
  }

  lemma AfterRootInCategory(browse: Browser, root: BrowseResult)
    ensures InCategory(AfterRoot(browse, root).results, Browsing)
  {
    var meta := browse("0", MetadataFlag, "*", 0, 100, "");
    var metaResult := if meta.Some? then TestResult("Browse Metadata", Browsing, Pass, "BrowseMetadata for root successful", 1.0)
                      else TestResult("Browse Metadata", Browsing, Fail, "BrowseMetadata for root failed", 1.0);
    var pagination := if root.totalMatches > 1 then [PaginationResult(browse("0", ChildrenFlag, "*", 0, 1, ""))] else [];
    var cs := Containers(root.items);
    var nav := if cs != [] then RecursiveBrowse(browse, cs[0], 1)
               else Outcome([TestResult("Container Navigation", Browsing, Warn,
                                        "No containers found in root to test navigation", 1.0)], []);
    if cs != [] {
      NavigationVerdicts(browse, cs[0], 1);
    }
    assert AfterRoot(browse, root).results == [metaResult] + pagination + nav.results;
    InCategoryAppend([metaResult], pagination, Browsing);
    InCategoryAppend([metaResult] + pagination, nav.results, Browsing);
  }

  lemma BrowsingInCategory(available: bool, browse: Browser)
    ensures InCategory(BrowsingResults(available, browse).results, Browsing)
  {
    if available && Children(browse, "0").Some? {
      var root := Children(browse, "0").value;
      AfterRootInCategory(browse, root);
      var first := TestResult("Browse Root", Browsing, Pass,
                              "Root browse returned " + IntToString(root.numberReturned) + " items, "
                              + IntToString(root.totalMatches) + " total", 2.0);
      assert BrowsingResults(available, browse).results == [first] + AfterRoot(browse, root).results;
      InCategoryAppend([first], AfterRoot(browse, root).results, Browsing);
    }
  }

  // ---------------------------------------------------------------------
  // Metadata
  // ---------------------------------------------------------------------

  /** How many of `items` satisfy `p`: the `sum(1 for x in items if p(x))` of the phases. */
  function CountWhere<T>(items: seq<T>, p: T -> bool): (n: nat)
    ensures n <= |items|
    decreases |items|
  {
    if items == [] then 0 else CountWhere(items[..|items| - 1], p) + (if p(items[|items| - 1]) then 1 else 0)
  }

  /** The count is the whole length exactly when every item satisfies `p`. */
  lemma {:induction false} CountAll<T>(items: seq<T>, p: T -> bool)
    ensures CountWhere(items, p) == |items| <==> forall k :: 0 <= k < |items| ==> p(items[k])
    decreases |items|
  {
    if items != [] {
      var init := items[..|items| - 1];
      CountAll(init, p);
      assert forall k :: 0 <= k < |init| ==> init[k] == items[k];
    }
  }

  /** The count is 0 exactly when no item satisfies `p`. */
  lemma {:induction false} CountNone<T>(items: seq<T>, p: T -> bool)
    ensures CountWhere(items, p) == 0 <==> forall k :: 0 <= k < |items| ==> !p(items[k])
    decreases |items|
  {
    if items != [] {
      var init := items[..|items| - 1];
      CountNone(init, p);
      assert forall k :: 0 <= k < |init| ==> init[k] == items[k];
    }
  }

  /** `[i for i in items if not i.is_container]`. */
  function MediaItems(items: seq<MediaItem>): (ms: seq<MediaItem>)
    ensures |ms| <= |items|
    ensures forall k :: 0 <= k < |ms| ==> !ms[k].isContainer && ms[k] in items
    ensures forall m :: m in ms <==> m in items && !m.isContainer
    decreases |items|
  {
    if items == [] then []
    else
      assert items == items[..|items| - 1] + [items[|items| - 1]];
      MediaItems(items[..|items| - 1]) + (if items[|items| - 1].isContainer then [] else [items[|items| - 1]])
  }

  /** The media items of a concatenation are those of each part, in order. */
  lemma {:induction false} MediaItemsAppend(a: seq<MediaItem>, b: seq<MediaItem>)
    ensures MediaItems(a + b) == MediaItems(a) + MediaItems(b)
    decreases |b|
  {
    if b == [] {
      assert a + b == a;
    } else {
      var init := b[..|b| - 1];
      assert (a + b)[..|a + b| - 1] == a + init;
      assert (a + b)[|a + b| - 1] == b[|b| - 1];
      MediaItemsAppend(a, init);
    }
  }

  /** All resources of `items`, item by item. */
  function AllResources(items: seq<MediaItem>): seq<Resource>
    decreases |items|
  {
    if items == [] then [] else AllResources(items[..|items| - 1]) + items[|items| - 1].resources
  }

  /** `r.get("protocol_info")` is truthy. */
  predicate HasProtocolInfo(r: Resource) {
    Truthy(r.protocolInfo)
  }

  /** "All n ..." when every one of `total` qualifies, otherwise "missing/total ...". */
  function Coverage(name: string, good: nat, total: nat, all: string, missing: string, short: Status): (t: TestResult)
    requires good <= total
    ensures t.name == name
    ensures good == total ==> t.status == Pass
    ensures good < total ==> t.status == short
  {
    if good == total then TestResult(name, Category.Metadata, Pass, "All " + IntToString(total) + " " + all, 1.0)
    else TestResult(name, Category.Metadata, short, IntToString(total - good) + "/" + IntToString(total) + " " + missing, 1.0)
  }

  /** The distinct values of `s`, in order of first occurrence. */
  function Distinct(s: seq<string>): (d: seq<string>)
    ensures forall k :: 0 <= k < |d| ==> d[k] in s
    ensures forall x :: x in s ==> x in d
    ensures forall i, j :: 0 <= i < j < |d| ==> d[i] != d[j]
    decreases |s|
  {
    if s == [] then []
    else
      var d := Distinct(s[..|s| - 1]);
      assert forall x :: x in s[..|s| - 1] ==> x in s;
      if s[|s| - 1] in d then d else d + [s[|s| - 1]]
  }

  /** The non-empty classes of `items`, in order. */
  function Classes(items: seq<MediaItem>): (cs: seq<string>)
    ensures |cs| <= |items|
    ensures forall k :: 0 <= k < |cs| ==> cs[k] != ""
    ensures forall c :: c in cs <==> c != "" && exists k :: 0 <= k < |items| && items[k].itemClass == c
    decreases |items|
  {
    if items == [] then []
    else
      assert forall k :: 0 <= k < |items| - 1 ==> items[..|items| - 1][k] == items[k];
      Classes(items[..|items| - 1]) + (if items[|items| - 1].itemClass != "" then [items[|items| - 1].itemClass] else [])
  }

  /** The classes of a concatenation are those of each part, in order. */
  lemma {:induction false} ClassesAppend(a: seq<MediaItem>, b: seq<MediaItem>)
    ensures Classes(a + b) == Classes(a) + Classes(b)
    decreases |b|
  {
    if b == [] {
      assert a + b == a;
    } else {
      var init := b[..|b| - 1];
      assert (a + b)[..|a + b| - 1] == a + init;
      assert (a + b)[|a + b| - 1] == b[|b| - 1];
      ClassesAppend(a, init);
    }
  }

  /** `[c for c in classes if c.startswith("object.")]`. */
  function ValidClasses(cs: seq<string>): (v: seq<string>)
    ensures |v| <= |cs| && forall k :: 0 <= k < |v| ==> StartsWith(v[k], "object.") && v[k] in cs
    ensures forall c :: c in v <==> c in cs && StartsWith(c, "object.")
    decreases |cs|
  {
    if cs == [] then []
    else
      assert cs == cs[..|cs| - 1] + [cs[|cs| - 1]];
      ValidClasses(cs[..|cs| - 1]) + (if StartsWith(cs[|cs| - 1], "object.") then [cs[|cs| - 1]] else [])
  }

  /** The valid classes of a concatenation are those of each part, in order. */
  lemma {:induction false} ValidClassesAppend(a: seq<string>, b: seq<string>)
    ensures ValidClasses(a + b) == ValidClasses(a) + ValidClasses(b)
    decreases |b|
  {
    if b == [] {
      assert a + b == a;
    } else {
      var init := b[..|b| - 1];
      assert (a + b)[..|a + b| - 1] == a + init;
      assert (a + b)[|a + b| - 1] == b[|b| - 1];
      ValidClassesAppend(a, init);
    }
  }

  /** The UPnP class verdict over the distinct classes: none at all when no class is valid. */
  function ClassFormatResults(classes: seq<string>): seq<TestResult> {
    var valid := ValidClasses(classes);
    if |valid| == |classes| && classes != [] then
      [TestResult("UPnP Class Format", Category.Metadata, Pass,
                  "All classes follow object.* format: " + Join(classes[..if |classes| < 5 then |classes| else 5], ", "), 1.0)]
    else if valid != [] then
      [TestResult("UPnP Class Format", Category.Metadata, Warn, "Some classes don't follow object.* format", 1.0)]
    else []
  }

  /** The verdicts on the media items only: resources present, and protocolInfo on every resource. */
  function MediaCoverage(media: seq<MediaItem>): seq<TestResult> {
    if media == [] then []
    else
      var withRes := CountWhere(media, (i: MediaItem) => i.resources != []);
      var res := AllResources(media);
      var withInfo := CountWhere(res, HasProtocolInfo);
      [if withRes == |media| then TestResult("Media Resources", Category.Metadata, Pass, "All " + IntToString(|media|) + " media items have resources", 1.0)
       else if withRes > 0 then
         TestResult("Media Resources", Category.Metadata, Warn,
                    IntToString(|media| - withRes) + "/" + IntToString(|media|) + " media items missing resources", 1.0)
       else TestResult("Media Resources", Category.Metadata, Fail, "No media items have resources defined", 1.0)]
      + (if res == [] then []
         else [Coverage("Resource protocolInfo", withInfo, |res|, "resources have protocolInfo", "resources missing protocolInfo", Warn)])
  }

  /** `_run_metadata_tests` over `_browsed_items`. */
  function MetadataResults(browsed: seq<MediaItem>): (rs: seq<TestResult>)
    ensures browsed == [] ==> |rs| == 1 && rs[0].status == Skip
    ensures browsed != [] ==> |rs| >= 3
  {
    if browsed == [] then
      [TestResult("Metadata Availability", Category.Metadata, Skip, "No items available for metadata testing", 1.0)]
    else
      var total := |browsed|;
      var cs := Containers(browsed);
      [Coverage("Item IDs", CountWhere(browsed, (i: MediaItem) => i.id != ""), total, "items have IDs", "items missing IDs", Fail),
       Coverage("Item Titles", CountWhere(browsed, (i: MediaItem) => i.title != ""), total, "items have titles", "items missing titles", Warn),
       Coverage("Item Classes", CountWhere(browsed, (i: MediaItem) => i.itemClass != ""), total,
                "items have UPnP classes", "items missing UPnP class", Warn)]
      + (if cs == [] then []
         else [Coverage("Container childCount", CountWhere(cs, (i: MediaItem) => i.childCount.Some?), |cs|,
                        "containers have childCount", "containers missing childCount", Warn)])
      + MediaCoverage(MediaItems(browsed))
      + ClassFormatResults(Distinct(Classes(browsed)))
  }

  /** "Item IDs" passes exactly when every browsed object has an ID, and fails otherwise. */
  lemma ItemIdsVerdict(browsed: seq<MediaItem>)
    requires browsed != []
    ensures var r := MetadataResults(browsed)[0];
            && r.name == "Item IDs"
            && (r.status == Pass <==> forall k :: 0 <= k < |browsed| ==> browsed[k].id != "")
            && (r.status == Fail <==> exists k :: 0 <= k < |browsed| && browsed[k].id == "")
  {
    CountAll(browsed, (i: MediaItem) => i.id != "");
  }

  /** "Media Resources" is PASS when all media items have resources, FAIL when none has, WARN in between. */
  lemma MediaResourcesVerdict(media: seq<MediaItem>)
    requires media != []
    ensures var r := MediaCoverage(media)[0];
            && r.name == "Media Resources"
            && (r.status == Pass <==> forall k :: 0 <= k < |media| ==> media[k].resources != [])
            && (r.status == Fail <==> forall k :: 0 <= k < |media| ==> media[k].resources == [])
  {
    CountAll(media, (i: MediaItem) => i.resources != []);
    CountNone(media, (i: MediaItem) => i.resources != []);
  }

  /**
    "Resource protocolInfo" is judged exactly when the media items have some
    resource, and passes iff every one of their resources carries a
    non-empty protocolInfo; otherwise it warns.
   */
  lemma ProtocolInfoVerdict(media: seq<MediaItem>)
    requires media != []
    ensures var rs, res := MediaCoverage(media), AllResources(media);
            && (|rs| == 2 <==> res != []) && 1 <= |rs| <= 2
            && (res != [] ==>
                  && rs[1].name == "Resource protocolInfo"
                  && (rs[1].status == Pass <==> forall k :: 0 <= k < |res| ==> Truthy(res[k].protocolInfo))
                  && (rs[1].status == Warn <==> exists k :: 0 <= k < |res| && !Truthy(res[k].protocolInfo)))
  {
    CountAll(AllResources(media), HasProtocolInfo);
  }

  /** When no non-empty class begins with "object.", no class-format result is given at all. */
  lemma {:induction false} NoValidClasses(classes: seq<string>)
    requires forall k :: 0 <= k < |classes| ==> !StartsWith(classes[k], "object.")
    ensures ValidClasses(classes) == []
    decreases |classes|
  {
    if classes != [] {
      NoValidClasses(classes[..|classes| - 1]);
    }
  }

  lemma NoValidClassNoVerdict(classes: seq<string>)
    requires forall k :: 0 <= k < |classes| ==> !StartsWith(classes[k], "object.")
    ensures ClassFormatResults(classes) == []
  {
    NoValidClasses(classes);
  }

  // ---------------------------------------------------------------------
  // Media resources
  // ---------------------------------------------------------------------

  /** The media objects that have at least one resource. */
  function Playable(items: seq<MediaItem>): (ms: seq<MediaItem>)
    ensures |ms| <= |items|
    ensures forall k :: 0 <= k < |ms| ==> !ms[k].isContainer && ms[k].resources != []
    ensures forall m :: m in ms <==> m in items && !m.isContainer && m.resources != []
    decreases |items|
  {
    if items == [] then []
    else
      var last := items[|items| - 1];
      assert items == items[..|items| - 1] + [last];
      Playable(items[..|items| - 1]) + (if !last.isContainer && last.resources != [] then [last] else [])
  }

  /** The playable objects of a concatenation are those of each part, in order. */
  lemma {:induction false} PlayableAppend(a: seq<MediaItem>, b: seq<MediaItem>)
    ensures Playable(a + b) == Playable(a) + Playable(b)
    decreases |b|
  {
    if b == [] {
      assert a + b == a;
    } else {
      var init := b[..|b| - 1];
      assert (a + b)[..|a + b| - 1] == a + init;
      assert (a + b)[|a + b| - 1] == b[|b| - 1];
      PlayableAppend(a, init);
    }
  }

  /** The URL of the first resource, when it is truthy. */
  function FirstUrl(item: MediaItem): Option<string> {
    if item.resources != [] && Truthy(item.resources[0].url) then item.resources[0].url else None
  }

  /** The URLs the accessibility probe requests: the truthy first-resource URLs of the sample, in order. */
  function TestedUrls(sample: seq<MediaItem>): (us: seq<string>)
    ensures |us| <= |sample|
    decreases |sample|
  {
    if sample == [] then []
    else
      var u := FirstUrl(sample[|sample| - 1]);
      TestedUrls(sample[..|sample| - 1]) + (if u.Some? then [u.value] else [])
  }

  /** A URL is tested exactly when it is the first-resource URL of some sampled object. */
  lemma {:induction false} TestedUrlsComplete(sample: seq<MediaItem>)
    ensures forall u :: u in TestedUrls(sample) <==> exists k :: 0 <= k < |sample| && FirstUrl(sample[k]) == Some(u)
    decreases |sample|
  {
    if sample != [] {
      var init := sample[..|sample| - 1];
      TestedUrlsComplete(init);
      assert forall k :: 0 <= k < |init| ==> init[k] == sample[k];
    }
  }

  /** The URLs tested for a concatenation are those of each part, in order. */
  lemma {:induction false} TestedUrlsAppend(a: seq<MediaItem>, b: seq<MediaItem>)
    ensures TestedUrls(a + b) == TestedUrls(a) + TestedUrls(b)
    decreases |b|
  {
    if b == [] {
      assert a + b == a;
    } else {
      var init := b[..|b| - 1];
      assert (a + b)[..|a + b| - 1] == a + init;
      assert (a + b)[|a + b| - 1] == b[|b| - 1];
      TestedUrlsAppend(a, init);
    }
  }

  /** The sample `media_items[:5]`: the first five playable objects, or all of them when fewer. */
  function Sample(browsed: seq<MediaItem>): (s: seq<MediaItem>)
    ensures |s| <= 5
    ensures s <= Playable(browsed)
    ensures |s| == if |Playable(browsed)| < 5 then |Playable(browsed)| else 5
  {
    var ms := Playable(browsed);
    if |ms| <= 5 then ms else ms[..5]
  }

  function AccessibilityResults(tested: nat, ok: nat): (rs: seq<TestResult>)
    requires ok <= tested
    ensures |rs| == (if tested == 0 then 0 else 1)
    ensures forall k :: 0 <= k < |rs| ==> rs[k].status != Skip
  {
    if tested == 0 then []
    else if ok == tested then
      [TestResult("Resource Accessibility", MediaResources, Pass, "All " + IntToString(tested) + " tested resources are accessible", 1.5)]
    else if ok > 0 then
      [TestResult("Resource Accessibility", MediaResources, Warn,
                  IntToString(ok) + "/" + IntToString(tested) + " tested resources are accessible", 1.5)]
    else
      [TestResult("Resource Accessibility", MediaResources, Fail, "None of " + IntToString(tested) + " tested resources are accessible", 1.5)]
  }

  /** Only the first sampled object's first resource is tried with a range request. */
  function RangeResults(sample: seq<MediaItem>, rangeServed: string -> bool): (rs: seq<TestResult>)
    ensures |rs| == (if sample == [] || FirstUrl(sample[0]).None? then 0 else 1)
    ensures forall k :: 0 <= k < |rs| ==> rs[k].status != Skip
  {
    if sample == [] || FirstUrl(sample[0]).None? then []
    else if rangeServed(FirstUrl(sample[0]).value) then
      [TestResult("Range Request Support", MediaResources, Pass, "Server supports partial content requests", 1.0)]
    else
      [TestResult("Range Request Support", MediaResources, Warn, "Server may not support range requests (seeking might not work)", 1.0)]
  }

  /**
    `_run_media_resource_tests`: `accessible` stands for
    `check_resource_headers(url)["accessible"]` and `rangeServed` for
    `fetch_resource(url)` returning content.
   */
  function MediaResults(browsed: seq<MediaItem>, accessible: string -> bool, rangeServed: string -> bool): (rs: seq<TestResult>)
    ensures |rs| <= 2
    ensures Playable(browsed) == [] ==> |rs| == 1 && rs[0].status == Skip
  {
    if Playable(browsed) == [] then
      [TestResult("Resource Accessibility", MediaResources, Skip, "No media items with resources available for testing", 1.0)]
    else
      var sample := Sample(browsed);
      var urls := TestedUrls(sample);
      AccessibilityResults(|urls|, CountWhere(urls, accessible)) + RangeResults(sample, rangeServed)
  }

  /**
    Objects with resources but no first-resource URL are not probed at all:
    neither an accessibility nor a range verdict, and no SKIP either.
   */
  lemma NoUrlNoMediaVerdict(browsed: seq<MediaItem>, accessible: string -> bool, rangeServed: string -> bool)
    requires Playable(browsed) != [] && TestedUrls(Sample(browsed)) == []
    ensures MediaResults(browsed, accessible, rangeServed) == []
  {
    TestedUrlsComplete(Sample(browsed));
  }

  /** With something playable no result is a SKIP, so the SKIP appears exactly when nothing is playable. */
  lemma MediaSkipOnlyWithoutPlayable(browsed: seq<MediaItem>, accessible: string -> bool, rangeServed: string -> bool)
    ensures var rs := MediaResults(browsed, accessible, rangeServed);
            (Playable(browsed) == [] <==> exists k :: 0 <= k < |rs| && rs[k].status == Skip)
  {
    if Playable(browsed) != [] {
      var sample := Sample(browsed);
      var urls := TestedUrls(sample);
      var acc: seq<TestResult> := AccessibilityResults(|urls|, CountWhere(urls, accessible));
      var ranged: seq<TestResult> := RangeResults(sample, rangeServed);
      assert MediaResults(browsed, accessible, rangeServed) == acc + ranged;
    } else {
      assert MediaResults(browsed, accessible, rangeServed)[0].status == Skip;
    }
  }

  /** At most five resources are probed, one per sampled object, and only truthy URLs. */
  lemma {:induction false} SampleBounds(sample: seq<MediaItem>)
    ensures |TestedUrls(sample)| <= |sample|
    ensures forall k :: 0 <= k < |TestedUrls(sample)| ==> TestedUrls(sample)[k] != ""
    decreases |sample|
  {
    if sample != [] {
      SampleBounds(sample[..|sample| - 1]);
    }
  }

  /** The accessibility verdict is PASS exactly when every probed URL is accessible, FAIL when none is. */
  lemma {:induction false} AccessibilityVerdict(urls: seq<string>, accessible: string -> bool)
    requires urls != []
    ensures var rs := AccessibilityResults(|urls|, CountWhere(urls, accessible));
            && |rs| == 1 && rs[0].weight == 1.5
            && (rs[0].status == Pass <==> forall k :: 0 <= k < |urls| ==> accessible(urls[k]))
            && (rs[0].status == Fail <==> forall k :: 0 <= k < |urls| ==> !accessible(urls[k]))
  {
    CountAll(urls, accessible);
    CountNone(urls, accessible);
  }

  // ---------------------------------------------------------------------
  // Protocol compliance
  // ---------------------------------------------------------------------

  /**
    What the tester answered in the protocol phase; whether a ContentDirectory
    is cached is the `available` of the ContentDirectory phase, passed apart.
   */
  datatype ProtocolAnswers = ProtocolAnswers(
    invalidBrowse: Option<Element>,  // `_soap_request` of Browse on an ObjectID that does not exist
    descriptionUrl: Option<string>,  // `_device_description_url`
    head: Reply,                     // HEAD of the description URL
    get: Reply,                      // GET of the description URL
    updateId1: Option<int>,
    updateId2: Option<int>)

  function ErrorHandlingResults(available: bool, a: ProtocolAnswers): (rs: seq<TestResult>)
    ensures |rs| <= 1 && InCategory(rs, ProtocolCompliance)
  {
    if !available then []
    else
      [TestResult("Error Handling", ProtocolCompliance,
                  if a.invalidBrowse.Some? then Pass else Warn,
                  if a.invalidBrowse.Some? && |a.invalidBrowse.value.children| > 0
                  then "Server handles invalid requests gracefully"
                  else "Server may not handle invalid requests gracefully", 1.0)]
  }

  function HeadResults(a: ProtocolAnswers): (rs: seq<TestResult>)
    ensures |rs| <= 1 && InCategory(rs, ProtocolCompliance)
  {
    if !Truthy(a.descriptionUrl) then []
    else
      match a.head
      case Raised(_) =>
        [TestResult("HTTP HEAD Support", ProtocolCompliance, Warn, "Server may not support HTTP HEAD requests", 1.0)]
      case Response(status, _, _) =>
        if status == 200 then [TestResult("HTTP HEAD Support", ProtocolCompliance, Pass, "Server supports HTTP HEAD requests", 1.0)]
        else [TestResult("HTTP HEAD Support", ProtocolCompliance, Warn, "HTTP HEAD returned status " + IntToString(status), 1.0)]
  }

  function ContentTypeResults(a: ProtocolAnswers): (rs: seq<TestResult>)
    ensures |rs| <= 1 && InCategory(rs, ProtocolCompliance)
  {
    if !Truthy(a.descriptionUrl) || a.get.Raised? then []
    else
      var ct := Header(a.get, "Content-Type").GetOr("");
      if Contains(Lower(ct), "xml") then
        [TestResult("XML Content-Type", ProtocolCompliance, Pass, "Correct Content-Type for XML: " + ct, 1.0)]
      else
        [TestResult("XML Content-Type", ProtocolCompliance, Warn, "Non-standard Content-Type for XML: " + ct, 1.0)]
  }

  function ConsistencyResults(available: bool, a: ProtocolAnswers): (rs: seq<TestResult>)
    ensures |rs| <= 1 && InCategory(rs, ProtocolCompliance)
  {
    if !available || a.updateId1.None? || a.updateId2.None? then []
    else if a.updateId1 == a.updateId2 then
      [TestResult("SystemUpdateID Consistency", ProtocolCompliance, Pass, "SystemUpdateID is consistent between requests", 1.0)]
    else
      [TestResult("SystemUpdateID Consistency", ProtocolCompliance, Warn,
                  "SystemUpdateID changed between requests: " + IntToString(a.updateId1.value)
                  + " -> " + IntToString(a.updateId2.value), 1.0)]
  }

  /** `_run_protocol_compliance_tests`. */
  function ProtocolResults(available: bool, a: ProtocolAnswers): (rs: seq<TestResult>)
    ensures |rs| <= 4 && (!available ==> |rs| <= 2)
  {
    ErrorHandlingResults(available, a) + HeadResults(a) + ContentTypeResults(a) + ConsistencyResults(available, a)
  }

  /** Error handling is judged only with a ContentDirectory, PASS iff the invalid Browse returned a SOAP body. */
  lemma ErrorHandlingVerdict(available: bool, a: ProtocolAnswers)
    ensures var e := ErrorHandlingResults(available, a);
            && (|e| == 1 <==> available) && |e| <= 1
            && (|e| == 1 ==> (e[0].status == Pass <==> a.invalidBrowse.Some?))
  {
  }

  /** The consistency check is given only when both reads succeed, and is PASS iff they agree. */
  lemma ConsistencyVerdict(available: bool, a: ProtocolAnswers)
    ensures var c := ConsistencyResults(available, a);
            && (|c| == 1 <==> available && a.updateId1.Some? && a.updateId2.Some?) && |c| <= 1
            && (|c| == 1 ==> (c[0].status == Pass <==> a.updateId1 == a.updateId2))
  {
  }

  /** HEAD is judged whenever a description URL is known; the Content-Type only when its GET answered. */
  lemma DescriptionProbes(a: ProtocolAnswers)
    ensures |HeadResults(a)| == (if Truthy(a.descriptionUrl) then 1 else 0)
    ensures |ContentTypeResults(a)| == (if Truthy(a.descriptionUrl) && a.get.Response? then 1 else 0)
    ensures |HeadResults(a)| == 1 ==> (HeadResults(a)[0].status == Pass <==> a.head.Response? && a.head.status == 200)
    ensures |HeadResults(a)| == 1 ==> (HeadResults(a)[0].status == Warn <==> !(a.head.Response? && a.head.status == 200))
    ensures |ContentTypeResults(a)| == 1 ==>
              var isXml := Contains(Lower(Header(a.get, "Content-Type").GetOr("")), "xml");
              && ContentTypeResults(a)[0].name == "XML Content-Type"
              && (ContentTypeResults(a)[0].status == Pass <==> isXml)
              && (ContentTypeResults(a)[0].status == Warn <==> !isXml)
  {
  }

  lemma ProtocolInCategory(available: bool, a: ProtocolAnswers)
    ensures InCategory(ProtocolResults(available, a), ProtocolCompliance)
  {
    var e, h, c, u := ErrorHandlingResults(available, a), HeadResults(a), ContentTypeResults(a), ConsistencyResults(available, a);
    InCategoryAppend(e, h, ProtocolCompliance);
    InCategoryAppend(e + h, c, ProtocolCompliance);
    InCategoryAppend(e + h + c, u, ProtocolCompliance);
  }

  lemma InCategoryAppend(a: seq<TestResult>, b: seq<TestResult>, cat: Category)
    requires InCategory(a, cat) && InCategory(b, cat)
    ensures InCategory(a + b, cat)
  {
    forall k | 0 <= k < |a + b|
      ensures (a + b)[k].category == cat && StandardWeight((a + b)[k].weight)
    {
      if k < |a| { assert (a + b)[k] == a[k]; } else { assert (a + b)[k] == b[k - |a|]; }
    }
  }

  // ---------------------------------------------------------------------
  // The whole run
  // ---------------------------------------------------------------------

  /** Everything the tester answered during one run. */
  datatype Answers = Answers(
    root: Reply,
    discovered: Option<string>,
    device: Option<DeviceInfo>,
    contentDirectory: ContentDirectoryAnswers,
    connectionManager: ConnectionManagerAnswers,
    browse: Browser,
    accessible: string -> bool,
    rangeServed: string -> bool,
    protocol: ProtocolAnswers)

  /**
    `run_all_tests`: the eight phases in order. The result list starts empty;
    `_browsed_items` keeps what earlier runs browsed.
   */
  function RunAll(a: Answers, browsedBefore: seq<MediaItem>): (o: Outcome)
    ensures browsedBefore <= o.browsed
  {
    var b := BrowsingResults(a.contentDirectory.available, a.browse);
    var browsed := browsedBefore + b.browsed;
    Outcome(ConnectivityResults(a.root, a.discovered)
            + DeviceResults(a.device)
            + ContentDirectoryResults(a.contentDirectory)
            + ConnectionManagerResults(a.connectionManager)
            + b.results
            + MetadataResults(browsed)
            + MediaResults(browsed, a.accessible, a.rangeServed)
            + ProtocolResults(a.contentDirectory.available, a.protocol),
            browsed)
  }
}
