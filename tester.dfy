/**
  The UPnP client of tester.py: discovery of the device description, the
  parsed device and its cached services, SCPD parsing, SOAP actions of the
  ContentDirectory and ConnectionManager services, and resource probes.

  The HTTP client and the XML library are not modelled: an `Http` value says
  what each request yields, an `XmlLib` value stands for lxml's parser,
  `html.unescape` and `urljoin`.
 */
module Tester {
  import opened Wrappers
  import opened Text
  import opened Xml
  import opened Soap
  import opened Didl

  /** The outcome of one HTTP exchange: an exception (with its text) or a response. */
  datatype Reply =
    | Raised(error: string)
    | Response(status: int, body: string, headers: map<string, string>)

  /** httpx's `raise_for_status()` lets a response through only with a 2xx status. */
  predicate Succeeded(r: Reply) {
    r.Response? && 200 <= r.status < 300
  }

  /** `response.headers.get(name)`. */
  function Header(r: Reply, name: string): Option<string>
    requires r.Response?
  {
    if name in r.headers then Some(r.headers[name]) else None
  }

  /** What each kind of request to a URL yields. */
  datatype Http = Http(
    get: string -> Reply,                                  // client.get(url)
    head: string -> Reply,                                 // client.head(url, follow_redirects=True)
    rangeGet: string -> Reply,                             // client.get(url, Range: bytes=0-1023, follow_redirects=True)
    post: (string, string, map<string, string>) -> Reply)  // client.post(url, content=..., headers=...)

  /** lxml's `etree.fromstring` (`None` when it raises), `html.unescape` and `urljoin`. */
  datatype XmlLib = XmlLib(
    parse: string -> Option<Element>,
    unescape: string -> string,
    urljoin: (string, string) -> string)

  /** The five texts of a `service` element of the device description. */
  datatype ServiceEntry = ServiceEntry(
    serviceType: string,
    serviceId: string,
    scpdUrl: string,
    controlUrl: string,
    eventSubUrl: string)

  /** One state variable of an SCPD; `name` and `dataType` are lxml texts and may be absent. */
  datatype StateVariable = StateVariable(name: Option<string>, dataType: Option<string>, sendEvents: string)

  /** One service of the device. Its action and state-variable lists grow in place. */
  class ServiceInfo {
    const serviceType: string
    const serviceId: string
    const scpdUrl: string
    const controlUrl: string
    const eventSubUrl: string
    var actions: seq<string>
    var stateVariables: seq<StateVariable>

    constructor (entry: ServiceEntry)
      ensures Entry() == entry && actions == [] && stateVariables == []
    {
      serviceType := entry.serviceType;
      serviceId := entry.serviceId;
      scpdUrl := entry.scpdUrl;
      controlUrl := entry.controlUrl;
      eventSubUrl := entry.eventSubUrl;
      actions := [];
      stateVariables := [];
    }

    function Entry(): ServiceEntry {
      ServiceEntry(serviceType, serviceId, scpdUrl, controlUrl, eventSubUrl)
    }
  }

  datatype Icon = Icon(mimetype: string, width: string, height: string, depth: string, url: string)

  datatype DeviceInfo = DeviceInfo(
    deviceType: string,
    friendlyName: string,
    manufacturer: string,
    manufacturerUrl: Option<string>,
    modelName: string,
    modelDescription: Option<string>,
    modelNumber: Option<string>,
    modelUrl: Option<string>,
    serialNumber: Option<string>,
    udn: string,
    presentationUrl: Option<string>,
    services: seq<ServiceInfo>,
    icons: seq<Icon>)

  /** The result triple of Browse and Search. */
  datatype BrowseResult = BrowseResult(items: seq<MediaItem>, numberReturned: int, totalMatches: int)

  /** What `check_resource_headers` reports about a resource. */
  datatype ResourceHeaders = ResourceHeaders(
    accessible: bool,
    contentType: Option<string>,
    contentLength: Option<string>,
    acceptRanges: Option<string>,
    transferMode: Option<string>)

  // ---------------------------------------------------------------------
  // Reading the device description
  // ---------------------------------------------------------------------

  /** `get_text`: the text of the device-namespace child, "" when absent or empty. */
  function DeviceText(e: Element, tag: string): (s: string)
    ensures s == "" <==> ChildText(e, DeviceNs, tag).None?
  {
    ChildText(e, DeviceNs, tag).GetOr("")
  }

  function EntryOf(e: Element): ServiceEntry {
    ServiceEntry(DeviceText(e, "serviceType"), DeviceText(e, "serviceId"), DeviceText(e, "SCPDURL"),
                 DeviceText(e, "controlURL"), DeviceText(e, "eventSubURL"))
  }

  function IconOf(e: Element): Icon {
    Icon(DeviceText(e, "mimetype"), DeviceText(e, "width"), DeviceText(e, "height"),
         DeviceText(e, "depth"), DeviceText(e, "url"))
  }

  /** The `service` elements of the `serviceList`, or none when the list is absent. */
  function ServiceElements(device: Element): seq<Element> {
    match Child(device, DeviceNs, "serviceList")
    case Some(list) => ChildrenNamed(list, DeviceNs, "service")
    case None => []
  }

  /** The `icon` elements of the `iconList`, or none when the list is absent. */
  function IconElements(device: Element): seq<Element> {
    match Child(device, DeviceNs, "iconList")
    case Some(list) => ChildrenNamed(list, DeviceNs, "icon")
    case None => []
  }

  /** The device record built from a `device` element, with the given service objects. */
  function DeviceFields(device: Element, services: seq<ServiceInfo>, icons: seq<Icon>): DeviceInfo {
    DeviceInfo(
      DeviceText(device, "deviceType"),
      DeviceText(device, "friendlyName"),
      DeviceText(device, "manufacturer"),
      ChildText(device, DeviceNs, "manufacturerURL"),
      DeviceText(device, "modelName"),
      ChildText(device, DeviceNs, "modelDescription"),
      ChildText(device, DeviceNs, "modelNumber"),
      ChildText(device, DeviceNs, "modelURL"),
      ChildText(device, DeviceNs, "serialNumber"),
      DeviceText(device, "UDN"),
      ChildText(device, DeviceNs, "presentationURL"),
      services,
      icons)
  }

  /** The service-list loop: one new service object per element, in order. */
  method NewServices(es: seq<Element>) returns (services: seq<ServiceInfo>)
    ensures |services| == |es|
    ensures forall k :: 0 <= k < |es| ==>
              fresh(services[k]) && services[k].Entry() == EntryOf(es[k])
              && services[k].actions == [] && services[k].stateVariables == []
  {
    services := [];
    var i := 0;
    while i < |es|
      invariant 0 <= i <= |es| && |services| == i
      invariant forall k :: 0 <= k < i ==>
                  fresh(services[k]) && services[k].Entry() == EntryOf(es[k])
                  && services[k].actions == [] && services[k].stateVariables == []
    {
      var s := new ServiceInfo(EntryOf(es[i]));
      services := services + [s];
      i := i + 1;
    }
  }

  /** The icon-list loop: one icon record per element, in order. */
  method ParseIcons(es: seq<Element>) returns (icons: seq<Icon>)
    ensures |icons| == |es|
    ensures forall k :: 0 <= k < |es| ==> icons[k] == IconOf(es[k])
  {
    icons := [];
    var i := 0;
    while i < |es|
      invariant 0 <= i <= |es| && |icons| == i
      invariant forall k :: 0 <= k < i ==> icons[k] == IconOf(es[k])
    {
      icons := icons + [IconOf(es[i])];
      i := i + 1;
    }
  }

  // ---------------------------------------------------------------------
  // Service caching: the last matching service wins
  // ---------------------------------------------------------------------

  predicate IsContentDirectory(s: ServiceInfo) {
    Contains(s.serviceType, "ContentDirectory")
  }

  /** The `elif`: a service is a ConnectionManager only when it is not a ContentDirectory. */
  predicate IsConnectionManager(s: ServiceInfo) {
    !IsContentDirectory(s) && Contains(s.serviceType, "ConnectionManager")
  }

  /** The ContentDirectory cached after the loop over `services`, starting from `prior`. */
  function CachedContentDirectory(services: seq<ServiceInfo>, prior: Option<ServiceInfo>): Option<ServiceInfo>
    decreases |services|
  {
    if services == [] then prior
    else if IsContentDirectory(services[|services| - 1]) then Some(services[|services| - 1])
    else CachedContentDirectory(services[..|services| - 1], prior)
  }

  /** The ConnectionManager cached after the loop over `services`, starting from `prior`. */
  function CachedConnectionManager(services: seq<ServiceInfo>, prior: Option<ServiceInfo>): Option<ServiceInfo>
    decreases |services|
  {
    if services == [] then prior
    else if IsConnectionManager(services[|services| - 1]) then Some(services[|services| - 1])
    else CachedConnectionManager(services[..|services| - 1], prior)
  }

  /**
    The cached ContentDirectory is the last service whose type contains
    "ContentDirectory"; with no such service the previous one stays.
   */
  lemma {:induction false} ContentDirectoryIsLastMatch(services: seq<ServiceInfo>, prior: Option<ServiceInfo>)
    ensures (forall k :: 0 <= k < |services| ==> !IsContentDirectory(services[k]))
            ==> CachedContentDirectory(services, prior) == prior
    ensures forall i :: 0 <= i < |services| && IsContentDirectory(services[i])
                        && (forall j :: i < j < |services| ==> !IsContentDirectory(services[j]))
                        ==> CachedContentDirectory(services, prior) == Some(services[i])
  {
    if forall k :: 0 <= k < |services| ==> !IsContentDirectory(services[k]) {
      NoContentDirectoryKeepsPrior(services, prior);
    }
    forall i | 0 <= i < |services| && IsContentDirectory(services[i])
               && (forall j :: i < j < |services| ==> !IsContentDirectory(services[j]))
      ensures CachedContentDirectory(services, prior) == Some(services[i])
    {
      ContentDirectoryAt(services, prior, i);
    }
  }

  lemma {:induction false} NoContentDirectoryKeepsPrior(services: seq<ServiceInfo>, prior: Option<ServiceInfo>)
    requires forall k :: 0 <= k < |services| ==> !IsContentDirectory(services[k])
    ensures CachedContentDirectory(services, prior) == prior
    decreases |services|
  {
    if services != [] {
      var init := services[..|services| - 1];
      assert forall k :: 0 <= k < |init| ==> init[k] == services[k];
      NoContentDirectoryKeepsPrior(init, prior);
    }
  }

  lemma {:induction false} ContentDirectoryAt(services: seq<ServiceInfo>, prior: Option<ServiceInfo>, i: nat)
    requires i < |services| && IsContentDirectory(services[i])
    requires forall j :: i < j < |services| ==> !IsContentDirectory(services[j])
    ensures CachedContentDirectory(services, prior) == Some(services[i])
    decreases |services|
  {
    if i < |services| - 1 {
      var init := services[..|services| - 1];
      assert !IsContentDirectory(services[|services| - 1]);
      assert forall j :: i < j < |init| ==> init[j] == services[j];
      ContentDirectoryAt(init, prior, i);
    }
  }

  /**
    The cached ConnectionManager is the last service whose type contains
    "ConnectionManager" but not "ContentDirectory"; with none the previous one stays.
   */
  lemma {:induction false} ConnectionManagerIsLastMatch(services: seq<ServiceInfo>, prior: Option<ServiceInfo>)
    ensures (forall k :: 0 <= k < |services| ==> !IsConnectionManager(services[k]))
            ==> CachedConnectionManager(services, prior) == prior
    ensures forall i :: 0 <= i < |services| && IsConnectionManager(services[i])
                        && (forall j :: i < j < |services| ==> !IsConnectionManager(services[j]))
                        ==> CachedConnectionManager(services, prior) == Some(services[i])
  {
    if forall k :: 0 <= k < |services| ==> !IsConnectionManager(services[k]) {
      NoConnectionManagerKeepsPrior(services, prior);
    }
    forall i | 0 <= i < |services| && IsConnectionManager(services[i])
               && (forall j :: i < j < |services| ==> !IsConnectionManager(services[j]))
      ensures CachedConnectionManager(services, prior) == Some(services[i])
    {
      ConnectionManagerAt(services, prior, i);
    }
  }

  lemma {:induction false} NoConnectionManagerKeepsPrior(services: seq<ServiceInfo>, prior: Option<ServiceInfo>)
    requires forall k :: 0 <= k < |services| ==> !IsConnectionManager(services[k])
    ensures CachedConnectionManager(services, prior) == prior
    decreases |services|
  {
    if services != [] {
      var init := services[..|services| - 1];
      assert forall k :: 0 <= k < |init| ==> init[k] == services[k];
      NoConnectionManagerKeepsPrior(init, prior);
    }
  }

  lemma {:induction false} ConnectionManagerAt(services: seq<ServiceInfo>, prior: Option<ServiceInfo>, i: nat)
    requires i < |services| && IsConnectionManager(services[i])
    requires forall j :: i < j < |services| ==> !IsConnectionManager(services[j])
    ensures CachedConnectionManager(services, prior) == Some(services[i])
    decreases |services|
  {
    if i < |services| - 1 {
      var init := services[..|services| - 1];
      assert !IsConnectionManager(services[|services| - 1]);
      assert forall j :: i < j < |init| ==> init[j] == services[j];
      ConnectionManagerAt(init, prior, i);
    }
  }

  // ---------------------------------------------------------------------
  // SCPD parsing
  // ---------------------------------------------------------------------

  /** The non-empty `name` texts of the `action` elements, in order. */
  function NamesOf(es: seq<Element>): (names: seq<string>)
    ensures |names| <= |es|
    ensures forall k :: 0 <= k < |names| ==> names[k] != ""
    ensures forall n :: n in names <==> exists k :: 0 <= k < |es| && ChildText(es[k], ServiceNs, "name") == Some(n)
    decreases |es|
  {
    if es == [] then []
    else
      var last := es[|es| - 1];
      assert forall k :: 0 <= k < |es| - 1 ==> es[..|es| - 1][k] == es[k];
      NamesOf(es[..|es| - 1])
      + (match ChildText(last, ServiceNs, "name") case Some(n) => [n] case None => [])
  }

  /** The names of two runs of `action` elements are the names of the first run, then those of the second. */
  lemma {:induction false} NamesOfAppend(a: seq<Element>, b: seq<Element>)
    ensures NamesOf(a + b) == NamesOf(a) + NamesOf(b)
    decreases |b|
  {
    if b == [] {
      assert a + b == a;
    } else {
      var init := b[..|b| - 1];
      assert (a + b)[..|a + b| - 1] == a + init;
      assert (a + b)[|a + b| - 1] == b[|b| - 1];
      NamesOfAppend(a, init);
    }
  }

  /** One `stateVariable` element, when it has a `name` child. */
  function StateVariableOf(v: Element): (r: Option<StateVariable>)
    ensures r.Some? <==> Child(v, ServiceNs, "name").Some?
    ensures r.Some? ==> r.value.name == Child(v, ServiceNs, "name").value.text
    ensures r.Some? && "sendEvents" !in v.attrs ==> r.value.sendEvents == "yes"
    ensures r.Some? && "sendEvents" in v.attrs ==> r.value.sendEvents == v.attrs["sendEvents"]
    ensures r.Some? ==> r.value.dataType == (if Child(v, ServiceNs, "dataType").Some? then Child(v, ServiceNs, "dataType").value.text else None)
  {
    match Child(v, ServiceNs, "name")
    case None => None
    case Some(name) =>
      var dataType := match Child(v, ServiceNs, "dataType") case Some(t) => t.text case None => None;
      Some(StateVariable(name.text, dataType, AttrOr(v, "sendEvents", "yes")))
  }

  /** The state variables of the `stateVariable` elements that have a name, in order. */
  function StateVariablesOf(es: seq<Element>): (vs: seq<StateVariable>)
    ensures |vs| <= |es|
    ensures forall v :: v in vs <==> exists k :: 0 <= k < |es| && StateVariableOf(es[k]) == Some(v)
    decreases |es|
  {
    if es == [] then []
    else
      assert forall k :: 0 <= k < |es| - 1 ==> es[..|es| - 1][k] == es[k];
      StateVariablesOf(es[..|es| - 1])
      + (match StateVariableOf(es[|es| - 1]) case Some(v) => [v] case None => [])
  }

  /** The state variables of two runs of elements are those of the first run, then those of the second. */
  lemma {:induction false} StateVariablesOfAppend(a: seq<Element>, b: seq<Element>)
    ensures StateVariablesOf(a + b) == StateVariablesOf(a) + StateVariablesOf(b)
    decreases |b|
  {
    if b == [] {
      assert a + b == a;
    } else {
      var init := b[..|b| - 1];
      assert (a + b)[..|a + b| - 1] == a + init;
      assert (a + b)[|a + b| - 1] == b[|b| - 1];
      StateVariablesOfAppend(a, init);
    }
  }

  /** The `action` elements of the first `actionList`, or none. */
  function ActionElements(root: Element): seq<Element> {
    match Find(root, ServiceNs, "actionList")
    case Some(list) => ChildrenNamed(list, ServiceNs, "action")
    case None => []
  }

  /** The `stateVariable` elements of the first `serviceStateTable`, or none. */
  function StateVariableElements(root: Element): seq<Element> {
    match Find(root, ServiceNs, "serviceStateTable")
    case Some(table) => ChildrenNamed(table, ServiceNs, "stateVariable")
    case None => []
  }

  // ---------------------------------------------------------------------
  // Browse and Search results
  // ---------------------------------------------------------------------

  /** One count out-argument: 0 when absent or empty, `None` when `int()` would raise. */
  function CountOf(e: Option<Element>): Option<int> {
    if e.Some? && HasText(e.value) then ParseInt(e.value.text.value) else Some(0)
  }

  /** NumberReturned and TotalMatches; a malformed count resets both to 0. */
  function ParseCounts(numberReturned: Option<Element>, totalMatches: Option<Element>): (c: (int, int))
    ensures CountOf(numberReturned).None? || CountOf(totalMatches).None? ==> c == (0, 0)
    ensures CountOf(numberReturned).Some? && CountOf(totalMatches).Some? ==>
              c == (CountOf(numberReturned).value, CountOf(totalMatches).value)
  {
    match (CountOf(numberReturned), CountOf(totalMatches))
    case (Some(n), Some(t)) => (n, t)
    case _ => (0, 0)
  }

  /** An element whose text is the decimal numeral of `n`. */
  function Numeral(tag: string, n: int): Element {
    Element(ContentDirectory1Ns, tag, map[], Some(IntToString(n)), [])
  }

  /** Counts the server writes with `str()` are read back exactly. */
  lemma CountsRoundTrip(n: int, t: int)
    ensures ParseCounts(Some(Numeral("NumberReturned", n)), Some(Numeral("TotalMatches", t))) == (n, t)
  {
    ParseIntOfIntToString(n);
    ParseIntOfIntToString(t);
  }

  /** A count that is not an integer resets the other one too. */
  lemma MalformedCountResetsBoth(t: int)
    ensures ParseCounts(Some(Element(ContentDirectory1Ns, "NumberReturned", map[], Some("ten"), [])),
                        Some(Numeral("TotalMatches", t))) == (0, 0)
  {
    var s := "ten";
    assert TrimStart(s) == s && TrimEnd(s) == s;
    assert !IsDigitGroup(s);
  }

  /** The listing in a Browse or Search response body. */
  function ExtractListing(body: Element, xml: XmlLib): (r: BrowseResult)
    ensures var result := FindEither(body, ContentDirectory1Ns, "Result");
            if result.None? || result.value.text.None? then r == BrowseResult([], 0, 0)
            else
              && r.items == ParseDidlLite(result.value.text.value, xml.unescape, xml.parse)
              && (r.numberReturned, r.totalMatches)
                 == ParseCounts(FindEither(body, ContentDirectory1Ns, "NumberReturned"),
                                FindEither(body, ContentDirectory1Ns, "TotalMatches"))
  {
    var result := FindEither(body, ContentDirectory1Ns, "Result");
    if result.None? || result.value.text.None? then BrowseResult([], 0, 0)
    else
      var counts := ParseCounts(FindEither(body, ContentDirectory1Ns, "NumberReturned"),
                                FindEither(body, ContentDirectory1Ns, "TotalMatches"));
      BrowseResult(ParseDidlLite(result.value.text.value, xml.unescape, xml.parse), counts.0, counts.1)
  }

  /** The Browse arguments, in the order the SOAP body lists them. */
  function BrowseArgs(objectId: string, browseFlag: string, filter: string,
                      startingIndex: int, requestedCount: int, sortCriteria: string): seq<(string, string)>
  {
    [("ObjectID", objectId), ("BrowseFlag", browseFlag), ("Filter", filter),
     ("StartingIndex", IntToString(startingIndex)), ("RequestedCount", IntToString(requestedCount)),
     ("SortCriteria", sortCriteria)]
  }

  /** The Search arguments, in the order the SOAP body lists them. */
  function SearchArgs(containerId: string, searchCriteria: string, filter: string,
                      startingIndex: int, requestedCount: int, sortCriteria: string): seq<(string, string)>
  {
    [("ContainerID", containerId), ("SearchCriteria", searchCriteria), ("Filter", filter),
     ("StartingIndex", IntToString(startingIndex)), ("RequestedCount", IntToString(requestedCount)),
     ("SortCriteria", sortCriteria)]
  }

  /** The names of a list of arguments, in order. */
  function ArgNames(args: seq<(string, string)>): (names: seq<string>)
    ensures |names| == |args| && forall k :: 0 <= k < |args| ==> names[k] == args[k].0
  {
    seq(|args|, k requires 0 <= k < |args| => args[k].0)
  }

  /**
    A Browse request carries its six arguments under their names, the strings
    verbatim and the two numbers as decimal texts that read back as the numbers.
   */
  lemma BrowseArgsRoundTrip(objectId: string, browseFlag: string, filter: string,
                            startingIndex: int, requestedCount: int, sortCriteria: string)
    ensures var args := BrowseArgs(objectId, browseFlag, filter, startingIndex, requestedCount, sortCriteria);
      && ArgNames(args) == ["ObjectID", "BrowseFlag", "Filter", "StartingIndex", "RequestedCount", "SortCriteria"]
      && args[0].1 == objectId && args[1].1 == browseFlag && args[2].1 == filter && args[5].1 == sortCriteria
      && ParseInt(args[3].1) == Some(startingIndex) && ParseInt(args[4].1) == Some(requestedCount)
  {
    var args := BrowseArgs(objectId, browseFlag, filter, startingIndex, requestedCount, sortCriteria);
    var names := ArgNames(args);
    assert |names| == 6 && names[0] == args[0].0 && names[1] == args[1].0 && names[2] == args[2].0
      && names[3] == args[3].0 && names[4] == args[4].0 && names[5] == args[5].0;
    ParseIntOfIntToString(startingIndex);
    ParseIntOfIntToString(requestedCount);
  }

  /** The same for a Search request. */
  lemma SearchArgsRoundTrip(containerId: string, searchCriteria: string, filter: string,
                            startingIndex: int, requestedCount: int, sortCriteria: string)
    ensures var args := SearchArgs(containerId, searchCriteria, filter, startingIndex, requestedCount, sortCriteria);
      && ArgNames(args) == ["ContainerID", "SearchCriteria", "Filter", "StartingIndex", "RequestedCount", "SortCriteria"]
      && args[0].1 == containerId && args[1].1 == searchCriteria && args[2].1 == filter && args[5].1 == sortCriteria
      && ParseInt(args[3].1) == Some(startingIndex) && ParseInt(args[4].1) == Some(requestedCount)
  {
    var args := SearchArgs(containerId, searchCriteria, filter, startingIndex, requestedCount, sortCriteria);
    var names := ArgNames(args);
    assert |names| == 6 && names[0] == args[0].0 && names[1] == args[1].0 && names[2] == args[2].0
      && names[3] == args[3].0 && names[4] == args[4].0 && names[5] == args[5].0;
    ParseIntOfIntToString(startingIndex);
    ParseIntOfIntToString(requestedCount);
  }

  // ---------------------------------------------------------------------
  // Capability texts (see the Findings of the README)
  // ---------------------------------------------------------------------

  /**
    `get_search_capabilities` / `get_sort_capabilities` as written: "" without
    the element, otherwise its `.text`, so an element without text reads as
    failure.
   */
  function CapabilitiesAsWritten(body: Element, tag: string): (caps: Option<string>)
    ensures var found := FindEither(body, ContentDirectory1Ns, tag);
            && (caps.None? <==> found.Some? && found.value.text.None?)
            && (found.None? ==> caps == Some(""))
            && (found.Some? && caps.Some? ==> caps == found.value.text)
  {
    match FindEither(body, ContentDirectory1Ns, tag)
    case Some(e) => e.text
    case None => Some("")
  }

  /** The `Id` out-argument of a GetSystemUpdateID response, read with `int()`. */
  function UpdateIdOf(body: Element): (id: Option<int>)
    ensures var found := FindEither(body, ContentDirectory1Ns, "Id");
            && (found.Some? && HasText(found.value) ==> id == ParseInt(found.value.text.value))
            && (found.None? || !HasText(found.value) ==> id.None?)
  {
    var found := FindEither(body, ContentDirectory1Ns, "Id");
    if found.Some? && HasText(found.value) then ParseInt(found.value.text.value) else None
  }

  /**
    The Source and Sink texts of a GetProtocolInfo response: each the text of
    its element, `None` when the element is absent or has no text.
   */
  function ProtocolInfoOf(body: Element): (info: (Option<string>, Option<string>))
    ensures var source := FindEither(body, ConnectionManager1Ns, "Source");
            && (info.0.Some? <==> source.Some? && source.value.text.Some?)
            && (info.0.Some? ==> info.0 == source.value.text)
    ensures var sink := FindEither(body, ConnectionManager1Ns, "Sink");
            && (info.1.Some? <==> sink.Some? && sink.value.text.Some?)
            && (info.1.Some? ==> info.1 == sink.value.text)
  {
    var source := FindEither(body, ConnectionManager1Ns, "Source");
    var sink := FindEither(body, ConnectionManager1Ns, "Sink");
    (if source.Some? then source.value.text else None, if sink.Some? then sink.value.text else None)
  }

  /** The capability text: the element's text, "" when the element is absent or empty. */
  function Capabilities(body: Element, tag: string): (caps: Option<string>)
    ensures caps.Some?
    ensures FindEither(body, ContentDirectory1Ns, tag).Some? && FindEither(body, ContentDirectory1Ns, tag).value.text.Some?
            ==> caps == FindEither(body, ContentDirectory1Ns, tag).value.text
    ensures CapabilitiesAsWritten(body, tag).Some? ==> caps == CapabilitiesAsWritten(body, tag)
  {
    match FindEither(body, ContentDirectory1Ns, tag)
    case Some(e) => Some(e.text.GetOr(""))
    case None => Some("")
  }

  /** A response whose SearchCaps element is empty, as `<SearchCaps></SearchCaps>` parses. */
  function EmptySearchCapsBody(): Element {
    Element(SoapNs, "Body", map[], None,
            [Element(ContentDirectory1Ns, "GetSearchCapabilitiesResponse", map[], None,
                     [Element("", "SearchCaps", map[], None, [])])])
  }

  /**
    A server that supports no search criteria answers with an empty SearchCaps
    element; as written that reads as a failed action, corrected it is "".
   */
  lemma EmptyCapabilitiesReadAsFailure()
    ensures CapabilitiesAsWritten(EmptySearchCapsBody(), "SearchCaps") == None
    ensures Capabilities(EmptySearchCapsBody(), "SearchCaps") == Some("")
  {
    var caps := Element("", "SearchCaps", map[], None, []);
    var resp := Element(ContentDirectory1Ns, "GetSearchCapabilitiesResponse", map[], None, [caps]);
    assert Descendants(EmptySearchCapsBody()) == [resp, caps] by {
      assert Forest([caps]) == [caps];
      assert Forest([resp]) == [resp, caps];
    }
    assert "GetSearchCapabilitiesResponse" != "SearchCaps";
    assert FindAll(EmptySearchCapsBody(), ContentDirectory1Ns, "SearchCaps") == [];
    assert Named([caps], "", "SearchCaps") == [caps];
    assert FindAll(EmptySearchCapsBody(), "", "SearchCaps") == [caps];
  }

  // ---------------------------------------------------------------------
  // The tester
  // ---------------------------------------------------------------------

  /** The ContentDirectory:1 actions the tester invokes. */
  const BrowseAction := "Browse"
  const SearchAction := "Search"
  const SearchCapsAction := "GetSearchCapabilities"
  const SortCapsAction := "GetSortCapabilities"
  const UpdateIdAction := "GetSystemUpdateID"


  /** The device-description locations tried, in order. */
  const CommonPaths := ["/DeviceDescription.xml", "/description.xml", "/rootDesc.xml", "/device.xml",
                        "/MediaServer.xml", "/dmr.xml", "/upnp/desc.xml", "/dlna/device.xml", "/"]

  /** The loop over the `action` elements, extending `names` by each non-empty `name` text. */
  method CollectNames(names: seq<string>, actions: seq<Element>) returns (all: seq<string>)
    ensures all == names + NamesOf(actions)
  {
    all := names;
    for i := 0 to |actions|
      invariant all == names + NamesOf(actions[..i])
    {
      assert actions[..i + 1][..i] == actions[..i];
      var name := ChildText(actions[i], ServiceNs, "name");
      assert NamesOf(actions[..i + 1]) == NamesOf(actions[..i]) + (if name.Some? then [name.value] else []);
      if name.Some? {
        all := all + [name.value];
      }
    }
    assert actions[..|actions|] == actions;
  }

  /** The loop over the `stateVariable` elements, extending `vars` by each one that has a name. */
  /** One more element adds its state variable, if it has one, at the end. */
  lemma StateVariablesOfStep(es: seq<Element>, j: nat)
    requires j < |es|
    ensures var v := StateVariableOf(es[j]);
            StateVariablesOf(es[..j + 1]) == StateVariablesOf(es[..j]) + (if v.Some? then [v.value] else [])
  {
    assert es[..j + 1][..j] == es[..j];
  }

  method CollectStateVariables(vars: seq<StateVariable>, elements: seq<Element>) returns (all: seq<StateVariable>)
    ensures all == vars + StateVariablesOf(elements)
  {
    all := vars;
    for j := 0 to |elements|
      invariant all == vars + StateVariablesOf(elements[..j])
    {
      StateVariablesOfStep(elements, j);
      var v := StateVariableOf(elements[j]);
      all := all + (if v.Some? then [v.value] else []);
    }
    assert elements[..|elements|] == elements;
  }

  /** A discovery probe succeeds on status 200 with a body naming the UPnP device schema. */
  predicate Accepts(r: Reply) {
    r.Response? && r.status == 200 && Contains(r.body, "urn:schemas-upnp-org:device")
  }

  class DLNATester {
    const host: string
    const port: int
    const baseUrl: string
    const http: Http
    const xml: XmlLib
    var deviceInfo: Option<DeviceInfo>
    var deviceDescriptionUrl: Option<string>
    var contentDirectory: Option<ServiceInfo>
    var connectionManager: Option<ServiceInfo>

    constructor (host: string, port: int, http: Http, xml: XmlLib)
      ensures this.host == host && this.port == port && this.http == http && this.xml == xml
      ensures baseUrl == "http://" + host + ":" + IntToString(port)
      ensures deviceInfo.None? && deviceDescriptionUrl.None?
      ensures contentDirectory.None? && connectionManager.None?
    {
      this.host := host;
      this.port := port;
      this.http := http;
      this.xml := xml;
      baseUrl := "http://" + host + ":" + IntToString(port);
      deviceInfo := None;
      deviceDescriptionUrl := None;
      contentDirectory := None;
      connectionManager := None;
    }

    /** `_make_url`: absolute http/https URLs pass through, anything else is joined to the base URL. */
    function MakeUrl(path: string): (url: string)
      ensures StartsWith(path, "http://") || StartsWith(path, "https://") ==> url == path
      ensures !StartsWith(path, "http://") && !StartsWith(path, "https://") ==> url == xml.urljoin(baseUrl, path)
    {
      if StartsWith(path, "http://") || StartsWith(path, "https://") then path
      else xml.urljoin(baseUrl, path)
    }

    /** `_soap_request`: the SOAP Body of a successful, parseable response. */
    function SoapRequest(controlUrl: string, serviceType: string, action: string,
                         args: seq<(string, string)>): (body: Option<Element>)
      ensures var reply := http.post(MakeUrl(controlUrl), Envelope(action, serviceType, args),
                                     SoapHeaders(serviceType, action));
              body.Some? <==> Succeeded(reply) && xml.parse(reply.body).Some?
                              && Find(xml.parse(reply.body).value, SoapNs, "Body").Some?
      ensures body.Some? ==> Is(body.value, SoapNs, "Body")
    {
      var reply := http.post(MakeUrl(controlUrl), Envelope(action, serviceType, args),
                             SoapHeaders(serviceType, action));
      if !Succeeded(reply) then None
      else
        match xml.parse(reply.body)
        case None => None
        case Some(root) =>
          var found := Find(root, SoapNs, "Body");
          assert found.Some? ==> found.value == FindAll(root, SoapNs, "Body")[0];
          found
    }

    /** The URL of the first path whose GET the discovery probe accepts. */
    function FirstAccepted(paths: seq<string>): Option<string> {
      if paths == [] then None
      else if Accepts(http.get(MakeUrl(paths[0]))) then Some(MakeUrl(paths[0]))
      else FirstAccepted(paths[1..])
    }

    /** Discovery finds the first accepted path, and finds nothing only when every probe fails. */
    lemma {:induction false} FirstAcceptedIsFirst(paths: seq<string>)
      ensures FirstAccepted(paths).None? <==> forall i :: 0 <= i < |paths| ==> !Accepts(http.get(MakeUrl(paths[i])))
      ensures FirstAccepted(paths).Some? ==>
                exists i :: 0 <= i < |paths| && FirstAccepted(paths) == Some(MakeUrl(paths[i]))
                            && Accepts(http.get(MakeUrl(paths[i])))
                            && forall j :: 0 <= j < i ==> !Accepts(http.get(MakeUrl(paths[j])))
    {
      if paths != [] {
        FirstAcceptedIsFirst(paths[1..]);
        assert forall i :: 1 <= i < |paths| ==> paths[i] == paths[1..][i - 1];
        if !Accepts(http.get(MakeUrl(paths[0]))) && FirstAccepted(paths).Some? {
          var i :| 0 <= i < |paths[1..]| && FirstAccepted(paths[1..]) == Some(MakeUrl(paths[1..][i]))
                   && Accepts(http.get(MakeUrl(paths[1..][i])))
                   && forall j :: 0 <= j < i ==> !Accepts(http.get(MakeUrl(paths[1..][j])));
          assert forall j :: 0 <= j < i + 1 ==> !Accepts(http.get(MakeUrl(paths[j]))) by {
            forall j | 0 <= j < i + 1 ensures !Accepts(http.get(MakeUrl(paths[j]))) {
              if j > 0 { assert paths[j] == paths[1..][j - 1]; }
            }
          }
        }
      }
    }

    /** `discover_device_description`: probes the common paths in order and remembers the first hit. */
    method DiscoverDeviceDescription() returns (url: Option<string>)
      modifies this
      ensures url == FirstAccepted(CommonPaths)
      ensures deviceDescriptionUrl == (if url.Some? then url else old(deviceDescriptionUrl))
      ensures deviceInfo == old(deviceInfo)
      ensures contentDirectory == old(contentDirectory) && connectionManager == old(connectionManager)
    {
      var i := 0;
      while i < |CommonPaths|
        invariant 0 <= i <= |CommonPaths|
        invariant FirstAccepted(CommonPaths[i..]) == FirstAccepted(CommonPaths)
        invariant unchanged(this)
      {
        var candidate := MakeUrl(CommonPaths[i]);
        var reply := http.get(candidate);
        if reply.Response? && reply.status == 200 && Contains(reply.body, "urn:schemas-upnp-org:device") {
          deviceDescriptionUrl := Some(candidate);
          return Some(candidate);
        }
        assert CommonPaths[i..][1..] == CommonPaths[i + 1..];
        i := i + 1;
      }
      return None;
    }

    /** The `device` element of the description at `url`, when it loads and parses. */
    function DeviceElement(url: string): Option<Element> {
      var reply := http.get(url);
      if !Succeeded(reply) then None
      else
        match xml.parse(reply.body)
        case None => None
        case Some(root) => Find(root, DeviceNs, "device")
    }

    /**
      `fetch_device_description`: loads the description from `url`, the remembered
      URL or a fresh discovery; records the device and caches its services.
     */
    method FetchDeviceDescription(url: Option<string>) returns (info: Option<DeviceInfo>)
      modifies this
      ensures var target := url.OrElse(old(deviceDescriptionUrl)).OrElse(FirstAccepted(CommonPaths));
              && (info.Some? <==> target.Some? && DeviceElement(target.value).Some?)
              && (info.Some? ==>
                    var device := DeviceElement(target.value).value;
                    var services := info.value.services;
                    && info == Some(DeviceFields(device, services, info.value.icons))
                    && |services| == |ServiceElements(device)|
                    && (forall k :: 0 <= k < |services| ==>
                          fresh(services[k]) && services[k].Entry() == EntryOf(ServiceElements(device)[k])
                          && services[k].actions == [] && services[k].stateVariables == [])
                    && |info.value.icons| == |IconElements(device)|
                    && (forall k :: 0 <= k < |IconElements(device)| ==>
                          info.value.icons[k] == IconOf(IconElements(device)[k]))
                    && deviceInfo == info
                    && contentDirectory == CachedContentDirectory(services, old(contentDirectory))
                    && connectionManager == CachedConnectionManager(services, old(connectionManager)))
      ensures info.None? ==> deviceInfo == old(deviceInfo) && contentDirectory == old(contentDirectory)
                             && connectionManager == old(connectionManager)
      ensures deviceDescriptionUrl ==
                if url.None? && old(deviceDescriptionUrl).None? then FirstAccepted(CommonPaths)
                else old(deviceDescriptionUrl)
    {
      var target := url;
      if target.None? {
        target := deviceDescriptionUrl;
      }
      if target.None? {
        target := DiscoverDeviceDescription();
      }
      if target.None? {
        return None;
      }
      var device := DeviceElement(target.value);
      if device.None? {
        return None;
      }
      var d := RecordDevice(device.value);
      info := Some(d);
    }

    /** Builds the device record from a `device` element, stores it and caches its services. */
    method RecordDevice(device: Element) returns (d: DeviceInfo)
      modifies this
      ensures d == DeviceFields(device, d.services, d.icons)
      ensures |d.services| == |ServiceElements(device)|
      ensures forall k :: 0 <= k < |d.services| ==>
                fresh(d.services[k]) && d.services[k].Entry() == EntryOf(ServiceElements(device)[k])
                && d.services[k].actions == [] && d.services[k].stateVariables == []
      ensures |d.icons| == |IconElements(device)|
      ensures forall k :: 0 <= k < |IconElements(device)| ==> d.icons[k] == IconOf(IconElements(device)[k])
      ensures deviceInfo == Some(d) && deviceDescriptionUrl == old(deviceDescriptionUrl)
      ensures contentDirectory == CachedContentDirectory(d.services, old(contentDirectory))
      ensures connectionManager == CachedConnectionManager(d.services, old(connectionManager))
    {
      var services := NewServices(ServiceElements(device));
      var icons := ParseIcons(IconElements(device));
      d := DeviceFields(device, services, icons);
      deviceInfo := Some(d);
      CacheServices(services);
    }

    /** The cache loop: ContentDirectory first, otherwise ConnectionManager. */
    method CacheServices(services: seq<ServiceInfo>)
      modifies this
      ensures contentDirectory == CachedContentDirectory(services, old(contentDirectory))
      ensures connectionManager == CachedConnectionManager(services, old(connectionManager))
      ensures deviceInfo == old(deviceInfo) && deviceDescriptionUrl == old(deviceDescriptionUrl)
    {
      var i := 0;
      while i < |services|
        invariant 0 <= i <= |services|
        invariant contentDirectory == CachedContentDirectory(services[..i], old(contentDirectory))
        invariant connectionManager == CachedConnectionManager(services[..i], old(connectionManager))
        invariant deviceInfo == old(deviceInfo) && deviceDescriptionUrl == old(deviceDescriptionUrl)
      {
        assert services[..i + 1][..i] == services[..i];
        if Contains(services[i].serviceType, "ContentDirectory") {
          contentDirectory := Some(services[i]);
        } else if Contains(services[i].serviceType, "ConnectionManager") {
          connectionManager := Some(services[i]);
        }
        i := i + 1;
      }
      assert services[..|services|] == services;
    }

    /**
      `fetch_service_description`: on a loadable SCPD, appends its action names
      and named state variables to the service's lists; nothing is cleared, so
      a second successful call lists every entry twice.
     */
    method FetchServiceDescription(service: ServiceInfo) returns (ok: bool)
      modifies service
      ensures var reply := http.get(MakeUrl(service.scpdUrl));
              ok <==> Succeeded(reply) && xml.parse(reply.body).Some?
      ensures ok ==> var root := xml.parse(http.get(MakeUrl(service.scpdUrl)).body).value;
                     && service.actions == old(service.actions) + NamesOf(ActionElements(root))
                     && service.stateVariables
                        == old(service.stateVariables) + StateVariablesOf(StateVariableElements(root))
      ensures !ok ==> service.actions == old(service.actions) && service.stateVariables == old(service.stateVariables)
    {
      var reply := http.get(MakeUrl(service.scpdUrl));
      if !Succeeded(reply) || xml.parse(reply.body).None? {
        return false;
      }
      var root := xml.parse(reply.body).value;
      AppendActionNames(service, ActionElements(root));
      AppendStateVariables(service, StateVariableElements(root));
      return true;
    }

    /** The action loop: appends the non-empty `name` texts in order. */
    static method AppendActionNames(service: ServiceInfo, actions: seq<Element>)
      modifies service
      ensures service.actions == old(service.actions) + NamesOf(actions)
      ensures service.stateVariables == old(service.stateVariables)
    {
      var names := CollectNames(service.actions, actions);
      service.actions := names;
    }

    /** The state-variable loop: appends one entry per variable that has a `name` child. */
    static method AppendStateVariables(service: ServiceInfo, vars: seq<Element>)
      modifies service
      ensures service.stateVariables == old(service.stateVariables) + StateVariablesOf(vars)
      ensures service.actions == old(service.actions)
    {
      var variables := CollectStateVariables(service.stateVariables, vars);
      service.stateVariables := variables;
    }

    /** A SOAP action on the cached ContentDirectory; `None` without one. */
    function ContentDirectoryRequest(action: string, args: seq<(string, string)>): (body: Option<Element>)
      reads this
      ensures contentDirectory.None? ==> body.None?
    {
      match contentDirectory
      case None => None
      case Some(cd) => SoapRequest(cd.controlUrl, cd.serviceType, action, args)
    }

    /**
      `get_search_capabilities` as written: `None` without a ContentDirectory,
      when the SOAP call fails, and also when the SearchCaps element has no
      text (see the Findings); "" when there is no SearchCaps element.
     */
    function GetSearchCapabilities(): (caps: Option<string>)
      reads this
      ensures var body := ContentDirectoryRequest(SearchCapsAction, []);
              && (body.None? ==> caps.None?)
              && (body.Some? ==> caps == CapabilitiesAsWritten(body.value, "SearchCaps"))
    {
      var body := ContentDirectoryRequest(SearchCapsAction, []);
      if body.None? then None else CapabilitiesAsWritten(body.value, "SearchCaps")
    }

    /** `get_sort_capabilities` as written, the same as `GetSearchCapabilities` with the SortCaps element. */
    function GetSortCapabilities(): (caps: Option<string>)
      reads this
      ensures var body := ContentDirectoryRequest(SortCapsAction, []);
              && (body.None? ==> caps.None?)
              && (body.Some? ==> caps == CapabilitiesAsWritten(body.value, "SortCaps"))
    {
      var body := ContentDirectoryRequest(SortCapsAction, []);
      if body.None? then None else CapabilitiesAsWritten(body.value, "SortCaps")
    }

    /** `get_system_update_id`: the integer in the `Id` out-argument. */
    function GetSystemUpdateId(): (id: Option<int>)
      reads this
      ensures var body := ContentDirectoryRequest(UpdateIdAction, []);
              && (body.None? ==> id.None?)
              && (body.Some? ==> id == UpdateIdOf(body.value))
    {
      var body := ContentDirectoryRequest(UpdateIdAction, []);
      if body.None? then None else UpdateIdOf(body.value)
    }

    /** `get_protocol_info`: the Source and Sink texts of the ConnectionManager. */
    function GetProtocolInfo(): (info: (Option<string>, Option<string>))
      reads this
      ensures connectionManager.None? ==> info == (None, None)
      ensures connectionManager.Some? ==>
                var cm := connectionManager.value;
                var body := SoapRequest(cm.controlUrl, cm.serviceType, "GetProtocolInfo", []);
                && (body.None? ==> info == (None, None))
                && (body.Some? ==> info == ProtocolInfoOf(body.value))
    {
      match connectionManager
      case None => (None, None)
      case Some(cm) =>
        var body := SoapRequest(cm.controlUrl, cm.serviceType, "GetProtocolInfo", []);
        if body.None? then (None, None) else ProtocolInfoOf(body.value)
    }

    /** The listing of a Browse or Search response: `None` without a body, else the extracted result. */
    function Listing(body: Option<Element>): (r: Option<BrowseResult>)
      ensures r.None? <==> body.None?
      ensures r.Some? ==> r.value == ExtractListing(body.value, xml)
    {
      if body.None? then None else Some(ExtractListing(body.value, xml))
    }

    /** `browse`: `None` without a ContentDirectory or when the SOAP call fails. */
    function Browse(objectId: string, browseFlag: string, filter: string,
                    startingIndex: int, requestedCount: int, sortCriteria: string): (r: Option<BrowseResult>)
      reads this
      ensures var body := ContentDirectoryRequest(BrowseAction, BrowseArgs(objectId, browseFlag, filter,
                                                         startingIndex, requestedCount, sortCriteria));
              && (r.None? <==> body.None?)
              && r == Listing(body)
      ensures contentDirectory.None? ==> r.None?
    {
      Listing(ContentDirectoryRequest(BrowseAction, BrowseArgs(objectId, browseFlag, filter,
                                                               startingIndex, requestedCount, sortCriteria)))
    }

    /** `search`: `None` without a ContentDirectory or when the SOAP call fails. */
    function Search(containerId: string, searchCriteria: string, filter: string,
                    startingIndex: int, requestedCount: int, sortCriteria: string): (r: Option<BrowseResult>)
      reads this
      ensures var body := ContentDirectoryRequest(SearchAction, SearchArgs(containerId, searchCriteria, filter,
                                                         startingIndex, requestedCount, sortCriteria));
              && (r.None? <==> body.None?)
              && r == Listing(body)
      ensures contentDirectory.None? ==> r.None?
    {
      Listing(ContentDirectoryRequest(SearchAction, SearchArgs(containerId, searchCriteria, filter,
                                                               startingIndex, requestedCount, sortCriteria)))
    }

    /** `fetch_resource`: the first bytes and the content type, on status 200 or 206. */
    function FetchResource(url: string): (r: (Option<string>, Option<string>))
      ensures var reply := http.rangeGet(MakeUrl(url));
              r.0.Some? <==> reply.Response? && (reply.status == 200 || reply.status == 206)
      ensures r.0.None? ==> r.1.None?
    {
      var reply := http.rangeGet(MakeUrl(url));
      if reply.Response? && (reply.status == 200 || reply.status == 206) then
        (Some(reply.body), Header(reply, "Content-Type"))
      else (None, None)
    }

    /** `check_resource_headers`: accessible exactly on a HEAD status of 200. */
    function CheckResourceHeaders(url: string): (h: ResourceHeaders)
      ensures var reply := http.head(MakeUrl(url));
              h.accessible <==> reply.Response? && reply.status == 200
      ensures !h.accessible ==> h == ResourceHeaders(false, None, None, None, None)
    {
      var reply := http.head(MakeUrl(url));
      if reply.Response? && reply.status == 200 then
        ResourceHeaders(true, Header(reply, "Content-Type"), Header(reply, "Content-Length"),
                        Header(reply, "Accept-Ranges"), Header(reply, "transferMode.dlna.org"))
      else ResourceHeaders(false, None, None, None, None)
    }
  }
}
