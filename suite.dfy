/**
  `TestSuite` of tests.py: the result list and the browsed objects it
  accumulates while the phases run. Each phase method appends exactly the
  results its phase function in `Phases` prescribes.
 */
module Suite {
  import opened Wrappers
  import opened Xml
  import opened Didl
  import opened Tester
  import opened Results
  import opened Scoring
  import opened Phases

  lemma AppendAssoc<T>(a: seq<T>, b: seq<T>, c: seq<T>)
    ensures a + b + c == a + (b + c)
  {
  }

  /**
    The probing loop of `_run_media_resource_tests`: one HEAD probe per sampled
    object whose first resource has a non-empty URL, counting the accessible ones.
   */
  method ProbeSample(sample: seq<MediaItem>, accessible: string -> bool) returns (accessibleCount: nat, totalTested: nat)
    requires forall k :: 0 <= k < |sample| ==> sample[k].resources != []
    ensures totalTested == |TestedUrls(sample)|
    ensures accessibleCount == CountWhere(TestedUrls(sample), accessible)
  {
    accessibleCount, totalTested := 0, 0;
    for i := 0 to |sample|
      invariant totalTested == |TestedUrls(sample[..i])|
      invariant accessibleCount == CountWhere(TestedUrls(sample[..i]), accessible)
    {
      assert sample[..i + 1][..i] == sample[..i];
      ghost var before := TestedUrls(sample[..i]);
      var url := sample[i].resources[0].url;
      assert FirstUrl(sample[i]) == if url.Some? && url.value != "" then url else None;
      if url.Some? && url.value != "" {
        assert TestedUrls(sample[..i + 1]) == before + [url.value];
        assert (before + [url.value])[..|before|] == before;
        totalTested := totalTested + 1;
        if accessible(url.value) {
          accessibleCount := accessibleCount + 1;
        }
      } else {
        assert TestedUrls(sample[..i + 1]) == before + [];
        assert before + [] == before;
      }
    }
    assert sample[..|sample|] == sample;
  }

  class TestSuite {
    var results: seq<TestResult>
    var browsedItems: seq<MediaItem>
    const maxDepth: int

    constructor ()
      ensures results == [] && browsedItems == [] && maxDepth == MaxDepth
    {
      results := [];
      browsedItems := [];
      maxDepth := MaxDepth;
    }

    /** `_add_result`: appends one result and returns it. */
    method AddResult(name: string, category: Category, status: Status, message: string, weight: real)
      returns (r: TestResult)
      modifies this
      ensures r == TestResult(name, category, status, message, weight)
      ensures results == old(results) + [r] && browsedItems == old(browsedItems)
    {
      r := TestResult(name, category, status, message, weight);
      results := results + [r];
    }

    method RunConnectivityTests(root: Reply, discovered: Option<string>)
      modifies this
      ensures results == old(results) + ConnectivityResults(root, discovered)
      ensures browsedItems == old(browsedItems)
    {
      var r;
      if root.Raised? {
        r := AddResult("HTTP Connection", Connectivity, Fail, "Failed to connect: " + root.error, 2.0);
        return;
      }
      r := AddResult("HTTP Connection", Connectivity, Pass, "Server responded with status " + Text.IntToString(root.status), 2.0);
      if Truthy(discovered) {
        r := AddResult("Device Description Discovery", Connectivity, Pass, "Found device description at " + discovered.value, 2.0);
      } else {
        r := AddResult("Device Description Discovery", Connectivity, Fail, "Could not find device description XML", 2.0);
      }
    }

    method RunDeviceDescriptionTests(device: Option<DeviceInfo>)
      modifies this
      ensures results == old(results) + DeviceResults(device)
      ensures browsedItems == old(browsedItems)
    {
      var r;
      if device.None? {
        r := AddResult("Device Description Parsing", DeviceDescription, Fail, "Could not parse device description", 2.0);
        return;
      }
      var d := device.value;
      if Text.Contains(d.deviceType, "MediaServer") {
        r := AddResult("Device Type", DeviceDescription, Pass, "Device type: " + d.deviceType, 1.0);
      } else {
        r := AddResult("Device Type", DeviceDescription, Warn, "Non-standard device type: " + d.deviceType, 1.0);
      }
      ghost var t := r;
      assert t == DeviceTypeResult(d);
      RunRequiredFields(RequiredFields(d));
      ghost var fs := FieldResults(RequiredFields(d));
      var tail := DeviceTail(d);
      results := results + tail;
      assert DeviceResults(device) == [t] + fs + tail;
      AppendAssoc(old(results), [t], fs);
      AppendAssoc(old(results), [t] + fs, tail);
    }

    /** The required-field loop of `_run_device_description_tests`. */
    method RunRequiredFields(fields: seq<(string, string)>)
      modifies this
      ensures results == old(results) + FieldResults(fields)
      ensures browsedItems == old(browsedItems)
    {
      var r;
      for i := 0 to |fields|
        invariant results == old(results) + FieldResults(fields)[..i]
        invariant browsedItems == old(browsedItems)
      {
        var (name, value) := fields[i];
        if value != "" {
          r := AddResult("Required Field: " + name, DeviceDescription, Pass, name + " present: " + Shown(value), 1.0);
        } else {
          r := AddResult("Required Field: " + name, DeviceDescription, Fail, "Missing required field: " + name, 1.0);
        }
        assert r == FieldResult(fields[i]);
        assert FieldResults(fields)[..i + 1] == FieldResults(fields)[..i] + [r];
        AppendAssoc(old(results), FieldResults(fields)[..i], [r]);
      }
      assert FieldResults(fields)[..|fields|] == FieldResults(fields);
    }

    /** The required-action loop of `_run_content_directory_tests`. */
    method RunRequiredActions(actions: seq<string>)
      modifies this
      ensures results == old(results) + RequiredActionResults(RequiredActions, actions)
      ensures browsedItems == old(browsedItems)
    {
      ghost var req := RequiredActionResults(RequiredActions, actions);
      var r;
      for i := 0 to |RequiredActions|
        invariant results == old(results) + req[..i]
        invariant browsedItems == old(browsedItems)
      {
        var action := RequiredActions[i];
        if action in actions {
          r := AddResult("Action: " + action, ContentDirectory, Pass, action + " action available", 1.0);
        } else {
          r := AddResult("Action: " + action, ContentDirectory, Fail, "Required action " + action + " not found", 1.0);
        }
        assert req[..i + 1] == req[..i] + [r];
        AppendAssoc(old(results), req[..i], [r]);
      }
      assert req[..|RequiredActions|] == req;
    }

    /** The optional-action loop of `_run_content_directory_tests`: a result only for an offered action. */
    method RunOptionalActions(actions: seq<string>)
      modifies this
      ensures results == old(results) + OptionalActionResults(OptionalActions, actions)
      ensures browsedItems == old(browsedItems)
    {
      var r;
      for i := 0 to |OptionalActions|
        invariant results == old(results) + OptionalActionResults(OptionalActions[..i], actions)
        invariant browsedItems == old(browsedItems)
      {
        var action := OptionalActions[i];
        assert OptionalActions[..i + 1][..i] == OptionalActions[..i];
        ghost var before := OptionalActionResults(OptionalActions[..i], actions);
        if action in actions {
          r := AddResult("Optional Action: " + action, ContentDirectory, Pass, action + " action available", 0.5);
          AppendAssoc(old(results), before, [r]);
        } else {
          assert OptionalActionResults(OptionalActions[..i + 1], actions) == before + [];
          assert before + [] == before;
        }
      }
      assert OptionalActions[..|OptionalActions|] == OptionalActions;
    }

    method RunContentDirectoryTests(a: ContentDirectoryAnswers)
      modifies this
      ensures results == old(results) + ContentDirectoryResults(a)
      ensures browsedItems == old(browsedItems)
    {
      var r;
      if !a.available {
        r := AddResult("Content Directory Available", ContentDirectory, Skip, "ContentDirectory service not available", 1.0);
        return;
      }
      if a.scpdRetrieved {
        r := AddResult("SCPD Retrieval", ContentDirectory, Pass,
                       "Retrieved SCPD with " + Text.IntToString(|a.actions|) + " actions", 1.0);
      } else {
        r := AddResult("SCPD Retrieval", ContentDirectory, Fail, "Could not retrieve Service Control Protocol Description", 1.0);
      }
      ghost var scpd := r;
      assert scpd == ScpdResult(a);
      RunRequiredActions(a.actions);
      ghost var req := RequiredActionResults(RequiredActions, a.actions);
      RunOptionalActions(a.actions);
      ghost var opt := OptionalActionResults(OptionalActions, a.actions);
      var tail := [CapabilitiesResult(SearchCapsAction, "Search", a.searchCaps),
                   CapabilitiesResult(SortCapsAction, "Sort", a.sortCaps),
                   UpdateIdResult(a.updateId)];
      results := results + tail;
      assert ContentDirectoryResults(a) == [scpd] + req + opt + tail;
      AppendAssoc(old(results), [scpd], req);
      AppendAssoc(old(results), [scpd] + req, opt);
      AppendAssoc(old(results), [scpd] + req + opt, tail);
    }

    method RunConnectionManagerTests(a: ConnectionManagerAnswers)
      modifies this
      ensures results == old(results) + ConnectionManagerResults(a)
      ensures browsedItems == old(browsedItems)
    {
      var r;
      if !a.available {
        r := AddResult("Connection Manager Available", ConnectionManager, Skip, "ConnectionManager service not available", 1.0);
        return;
      }
      if a.scpdRetrieved {
        r := AddResult("CM SCPD Retrieval", ConnectionManager, Pass,
                       "Retrieved SCPD with " + Text.IntToString(|a.actions|) + " actions", 1.0);
      } else {
        r := AddResult("CM SCPD Retrieval", ConnectionManager, Fail, "Could not retrieve ConnectionManager SCPD", 1.0);
      }
      assert r == CmScpdResult(a);
      RunProtocolInfo(a.source);
      AppendAssoc(old(results), [r], ProtocolInfoResults(a.source));
    }

    /** The GetProtocolInfo part of `_run_connection_manager_tests`. */
    method RunProtocolInfo(source: Option<string>)
      modifies this
      ensures results == old(results) + ProtocolInfoResults(source)
      ensures browsedItems == old(browsedItems)
    {
      var r;
      if source.None? {
        r := AddResult("GetProtocolInfo", ConnectionManager, Fail, "GetProtocolInfo action failed", 1.0);
        return;
      }
      var protocols := Protocols(source.value);
      r := AddResult("GetProtocolInfo", ConnectionManager, Pass,
                     "Source protocols: " + Text.IntToString(|protocols|) + " defined", 1.0);
      if AdvertisesHttpGet(protocols) {
        r := AddResult("HTTP Streaming Protocol", ConnectionManager, Pass, "http-get protocol supported", 1.0);
      } else {
        r := AddResult("HTTP Streaming Protocol", ConnectionManager, Warn, "http-get protocol not advertised", 1.0);
      }
    }

    /** `_test_recursive_browse`: follows the first sub-container down to `maxDepth`. */
    method TestRecursiveBrowse(browse: Browser, container: MediaItem, depth: int)
      modifies this
      requires maxDepth == MaxDepth
      ensures results == old(results) + RecursiveBrowse(browse, container, depth).results
      ensures browsedItems == old(browsedItems) + RecursiveBrowse(browse, container, depth).browsed
      decreases MaxDepth + 1 - depth
    {
      if depth > maxDepth {
        assert results + [] == results && browsedItems + [] == browsedItems;
        return;
      }
      var result := Children(browse, container.id);
      var r;
      if result.None? {
        r := AddResult("Container Navigation", Browsing, Fail,
                       "Failed to browse container '" + container.title + "' (ID: " + container.id + ")", 1.0);
        assert browsedItems + [] == browsedItems;
        return;
      }
      var listing := result.value;
      browsedItems := browsedItems + listing.items;
      ghost var own: seq<TestResult> := [];
      if depth == 1 {
        r := AddResult("Container Navigation", Browsing, Pass,
                       "Successfully browsed container '" + container.title + "' ("
                       + Text.IntToString(listing.numberReturned) + " items)", 1.0);
        own := [r];
      } else {
        assert results == old(results) + own;
      }
      var subs := Containers(listing.items);
      ghost var deeper := Outcome([], []);
      if subs != [] && depth < maxDepth {
        deeper := RecursiveBrowse(browse, subs[0], depth + 1);
        TestRecursiveBrowse(browse, subs[0], depth + 1);
      } else {
        assert results + [] == results && browsedItems + [] == browsedItems;
      }
      assert RecursiveBrowse(browse, container, depth) == Outcome(own + deeper.results, listing.items + deeper.browsed);
      AppendAssoc(old(results), own, deeper.results);
      AppendAssoc(old(browsedItems), listing.items, deeper.browsed);
    }

    method RunBrowsingTests(available: bool, browse: Browser)
      modifies this
      requires maxDepth == MaxDepth
      ensures results == old(results) + BrowsingResults(available, browse).results
      ensures browsedItems == old(browsedItems) + BrowsingResults(available, browse).browsed
    {
      var r;
      if !available {
        r := AddResult("Browse Root", Browsing, Skip, "ContentDirectory not available", 1.0);
        assert browsedItems + [] == browsedItems;
        return;
      }
      var result := Children(browse, "0");
      if result.None? {
        r := AddResult("Browse Root", Browsing, Fail, "Browse action failed for root container", 2.0);
        assert browsedItems + [] == browsedItems;
        return;
      }
      var root := result.value;
      r := AddResult("Browse Root", Browsing, Pass,
                     "Root browse returned " + Text.IntToString(root.numberReturned) + " items, "
                     + Text.IntToString(root.totalMatches) + " total", 2.0);
      ghost var first := r;
      browsedItems := browsedItems + root.items;
      ghost var afterRoot := results;
      ghost var itemsAfterRoot := browsedItems;
      RunAfterRoot(browse, root);
      assert BrowsingResults(available, browse) ==
             Outcome([first] + AfterRoot(browse, root).results, root.items + AfterRoot(browse, root).browsed);
      AppendAssoc(old(results), [first], AfterRoot(browse, root).results);
      AppendAssoc(old(browsedItems), root.items, AfterRoot(browse, root).browsed);
    }

    /** The probes that follow a successful root browse: metadata, pagination and the descent. */
    method RunAfterRoot(browse: Browser, root: BrowseResult)
      modifies this
      requires maxDepth == MaxDepth
      ensures results == old(results) + AfterRoot(browse, root).results
      ensures browsedItems == old(browsedItems) + AfterRoot(browse, root).browsed
    {
      var r;
      var meta := browse("0", MetadataFlag, "*", 0, 100, "");
      if meta.Some? {
        r := AddResult("Browse Metadata", Browsing, Pass, "BrowseMetadata for root successful", 1.0);
      } else {
        r := AddResult("Browse Metadata", Browsing, Fail, "BrowseMetadata for root failed", 1.0);
      }
      ghost var metaResult := r;
      ghost var pagination: seq<TestResult> := [];
      if root.totalMatches > 1 {
        var page := browse("0", ChildrenFlag, "*", 0, 1, "");
        if page.Some? && page.value.numberReturned == 1 {
          r := AddResult("Pagination Support", Browsing, Pass, "Pagination (RequestedCount) works correctly", 1.0);
        } else {
          r := AddResult("Pagination Support", Browsing, Warn, "Pagination may not work correctly", 1.0);
        }
        pagination := [r];
        assert r == PaginationResult(page);
      } else {
        assert results == old(results) + [metaResult] + pagination;
      }
      ghost var nav := Navigation(browse, root.items);
      RunNavigation(browse, root.items);
      assert AfterRoot(browse, root) == Outcome([metaResult] + pagination + nav.results, nav.browsed);
      AppendAssoc(old(results), [metaResult], pagination);
      AppendAssoc(old(results), [metaResult] + pagination, nav.results);
    }

    /** The navigation step of `_run_browsing_tests`. */
    method RunNavigation(browse: Browser, items: seq<MediaItem>)
      modifies this
      requires maxDepth == MaxDepth
      ensures results == old(results) + Navigation(browse, items).results
      ensures browsedItems == old(browsedItems) + Navigation(browse, items).browsed
    {
      var containers := Containers(items);
      if containers != [] {
        TestRecursiveBrowse(browse, containers[0], 1);
      } else {
        var r := AddResult("Container Navigation", Browsing, Warn, "No containers found in root to test navigation", 1.0);
        assert browsedItems == old(browsedItems) + [];
      }
    }

    method RunMetadataTests()
      modifies this
      ensures results == old(results) + MetadataResults(old(browsedItems))
      ensures browsedItems == old(browsedItems)
    {
      results := results + MetadataResults(browsedItems);
    }

    method RunMediaResourceTests(accessible: string -> bool, rangeServed: string -> bool)
      modifies this
      ensures results == old(results) + MediaResults(old(browsedItems), accessible, rangeServed)
      ensures browsedItems == old(browsedItems)
    {
      var r;
      var media := Playable(browsedItems);
      if media == [] {
        r := AddResult("Resource Accessibility", MediaResources, Skip, "No media items with resources available for testing", 1.0);
        return;
      }
      var sample := if |media| <= 5 then media else media[..5];
      assert sample == Sample(browsedItems);
      var accessibleCount, totalTested := ProbeSample(sample, accessible);
      var access := AccessibilityResults(totalTested, accessibleCount);
      results := results + access;
      RunRangeProbe(sample, rangeServed);
      assert MediaResults(old(browsedItems), accessible, rangeServed) == access + RangeResults(sample, rangeServed);
      AppendAssoc(old(results), access, RangeResults(sample, rangeServed));
    }

    /** The range-request probe on the first sampled object, when its first resource has a URL. */
    method RunRangeProbe(sample: seq<MediaItem>, rangeServed: string -> bool)
      modifies this
      requires sample != [] && sample[0].resources != []
      ensures results == old(results) + RangeResults(sample, rangeServed)
      ensures browsedItems == old(browsedItems)
    {
      var url := sample[0].resources[0].url;
      assert FirstUrl(sample[0]) == if url.Some? && url.value != "" then url else None;
      if url.Some? && url.value != "" {
        var r;
        if rangeServed(url.value) {
          r := AddResult("Range Request Support", MediaResources, Pass, "Server supports partial content requests", 1.0);
        } else {
          r := AddResult("Range Request Support", MediaResources, Warn,
                         "Server may not support range requests (seeking might not work)", 1.0);
        }
      } else {
        assert results + [] == results;
      }
    }

    method RunProtocolComplianceTests(available: bool, a: ProtocolAnswers)
      modifies this
      ensures results == old(results) + ProtocolResults(available, a)
      ensures browsedItems == old(browsedItems)
    {
      var e, h, c, u := ErrorHandlingResults(available, a), HeadResults(a), ContentTypeResults(a), ConsistencyResults(available, a);
      assert ProtocolResults(available, a) == e + h + c + u;
      results := results + e + h + c + u;
      assert results == old(results) + (e + h + c + u);
    }

    /** `run_all_tests`: clears the results (not the browsed objects) and runs the eight phases in order. */
    method RunAllTests(a: Answers) returns (rs: seq<TestResult>)
      modifies this
      requires maxDepth == MaxDepth
      ensures rs == results == RunAll(a, old(browsedItems)).results
      ensures browsedItems == RunAll(a, old(browsedItems)).browsed
    {
      results := [];
      RunConnectivityTests(a.root, a.discovered);
      assert results == ConnectivityResults(a.root, a.discovered);
      RunDeviceDescriptionTests(a.device);
      RunContentDirectoryTests(a.contentDirectory);
      RunConnectionManagerTests(a.connectionManager);
      ghost var b := BrowsingResults(a.contentDirectory.available, a.browse);
      RunBrowsingTests(a.contentDirectory.available, a.browse);
      ghost var browsed := browsedItems;
      RunMetadataTests();
      RunMediaResourceTests(a.accessible, a.rangeServed);
      RunProtocolComplianceTests(a.contentDirectory.available, a.protocol);
      rs := results;
      assert RunAll(a, old(browsedItems)) ==
             Outcome(ConnectivityResults(a.root, a.discovered)
                     + DeviceResults(a.device)
                     + ContentDirectoryResults(a.contentDirectory)
                     + ConnectionManagerResults(a.connectionManager)
                     + b.results
                     + MetadataResults(browsed)
                     + MediaResults(browsed, a.accessible, a.rangeServed)
                     + ProtocolResults(a.contentDirectory.available, a.protocol),
                     browsed);
    }

    /** `get_summary`: the status counts, the score and the per-category counters built in one pass. */
    method GetSummary() returns (s: Summary)
      ensures s == MakeSummary(results, s.byCategory)
      ensures CategoryCounters(s.byCategory, results)
      ensures forall key :: key in s.byCategory ==> s.byCategory[key].Total() == |OfCategory(results, key)|
    {
      var byCategory := CountByCategory(results);
      s := MakeSummary(results, byCategory);
    }
  }
}
