# DLNA-Tester, modelled in Dafny

DLNA-Tester is a command-line compliance checker for DLNA/UPnP media servers. It:

- finds a server's device description;
- reads the server's ContentDirectory and ConnectionManager services;
- browses its content tree;
- runs eight phases of checks, each appending weighted PASS/FAIL/WARN/SKIP results;
- turns the results into a score, a letter grade, a summary and a process exit code.

It can also print the media library as a tree, bounded by a `max_items` budget.

This project models the deterministic core of that program and proves what it promises:

- `results.dfy`, `scoring.dfy` model the result record and its score contribution, `get_score` (total, maximum, percentage, grade) and the status and per-category counters of `get_summary`.
- `text.dfy`, `xml.dfy`, `soap.dfy`, `didl.dfy` hold the pieces the tester relies on:
  - Python's `str()`/`int()`, `split`/`join`, `startswith` and `lower`;
  - lxml's `find`/`findall` over an abstract element tree (tag, namespace, attributes, text, children);
  - `html.escape` and the SOAP envelope;
  - the DIDL-Lite parser (`_parse_didl_lite`, `_parse_didl_item`).
- `tester.py` is modelled in `tester.dfy`. The `DLNATester` class has the fields the code updates: the device record, the remembered description URL and the two cached services. `ServiceInfo` is a class whose action and state-variable lists grow in place. HTTP and XML parsing are function-valued parameters.
- The eight `_run_*_tests` phases of `tests.py` are pure functions of what the tester answered, in `phases.dfy`. `suite.dfy` holds the `TestSuite` class, whose methods append to `results` and `browsedItems`; each method is proved to append exactly what its phase function describes.
- `cli.py` helpers are in `cli.dfy`: colours, icons, truncation, critical failures and the exit code. `listing.dfy` models `browse_recursive`. The `TreeLister` class carries the two shared counters and the printed lines; it is proved against a functional walk, and that walk against the `max_items` budget and the depth-first order.

Points where the code behaves differently from what its surface suggests, and which the model follows:

- `run_all_tests` (dlna_tester/tests.py:80-98) runs all eight phases one after the other, even after a failed connectivity probe;
- `TestSuite.__init__` (dlna_tester/tests.py:62) takes only `tester` and `verbose`, so the `--full-scan`/`--max-items` options of the test front ends (dlna_tester/cli.py:253, 303) reach no suite code; the Findings record what that does to the exit code.

## Model

| member | source | states |
|---|---|---|
| Results.CategoryValue | dlna_tester/tests.py:21-31 | every category has a non-empty enumeration value |
| Results.CategoryValueInjective | dlna_tester/tests.py:145-150 | distinct categories have distinct values, so `by_category` keys never merge two categories |
| Results.TestResult.Score | dlna_tester/tests.py:49-56 | the full weight on PASS, half the weight on WARN, 0 on FAIL and SKIP; between 0 and the weight for a non-negative weight |
| Scoring.GetScore | dlna_tester/tests.py:100-132 | total and maximum are the two sums; a maximum of 0 gives grade "F"; the grade is the threshold grade of the percentage |
| Scoring.TotalScoreAppend | dlna_tester/tests.py:106 | the total score of a concatenation is the sum of the totals |
| Scoring.MaxScoreAppend | dlna_tester/tests.py:107 | the maximum of a concatenation is the sum of the maxima |
| Scoring.SkipIsNeutral | dlna_tester/tests.py:106-107 | appending a SKIP leaves score, maximum and grade unchanged |
| Scoring.AppendOne | dlna_tester/tests.py:106-107 | one more result adds its score to the total and, unless SKIP, its weight to the maximum |
| Scoring.ScoreBounds | dlna_tester/tests.py:50-56 | with non-negative weights, 0 <= total <= maximum |
| Scoring.PercentageBounds | dlna_tester/tests.py:109-112 | with non-negative weights the percentage lies in [0, 100] |
| Scoring.GradeMonotone | dlna_tester/tests.py:114-130 | a higher percentage never earns a lower grade |
| Scoring.GradeBoundaries | dlna_tester/tests.py:115-130 | the thresholds are inclusive: 95 is A+, 90 is A, 89.99 is B+, 60 is D, 59.99 is F |
| Scoring.FailToPass | dlna_tester/tests.py:50-56 | turning one FAIL into PASS raises the total by its weight and keeps the maximum |
| Scoring.WarnToPass | dlna_tester/tests.py:50-56 | turning one WARN into PASS raises the total by half its weight and keeps the maximum |
| Scoring.CountStatus | dlna_tester/tests.py:140-143 | a status count never exceeds the number of results |
| Scoring.StatusCountsPartition | dlna_tester/tests.py:140-143 | passed + failed + warned + skipped equals the number of results |
| Scoring.Counts.Add | dlna_tester/tests.py:150 | incrementing one counter raises the category total by one |
| Scoring.OfCategory | dlna_tester/tests.py:146-147 | a result is kept exactly when its category has the value `key`; never more results than there are |
| Scoring.OfCategoryAppend | dlna_tester/tests.py:146-147 | selecting a category distributes over concatenation, so the kept results stay in their order |
| Scoring.CountsOf | dlna_tester/tests.py:148-150 | the four counters of a list add up to its length |
| Scoring.CountsOfAppend | dlna_tester/tests.py:150 | one more result increments exactly the counter of its status |
| Scoring.BumpOther | dlna_tester/tests.py:148-150 | counting under one category leaves every other category's counters alone |
| Scoring.BumpKey | dlna_tester/tests.py:148-150 | counting under a category starts it from four zeros when new and increments its status counter |
| Scoring.CategoryCountersStep | dlna_tester/tests.py:146-150 | one loop step keeps the invariant: every key present counts exactly the results of its category |
| Scoring.PercentagesAgree | dlna_tester/tests.py:109-112 | the `max_score > 0` percentage of `get_summary` equals the `max_score == 0` one of `get_score` for non-negative weights |
| Scoring.MakeSummary | dlna_tester/tests.py:134-165 | the four counts sum to `total == len(results)`; score, maximum and grade are those of `get_score`; `failed == 0` iff no result failed |
| Scoring.NoFailCount | dlna_tester/tests.py:141 | the FAIL count is 0 exactly when no result is a FAIL |
| Scoring.CountByCategory | dlna_tester/tests.py:145-150 | the loop yields, for every category seen, its four counters over exactly its results, and no key for an unseen category |
| Text.Lower | dlna_tester/tests.py:539 | ASCII lowering: the length is kept and each ASCII capital becomes its small letter, every other character is unchanged |
| Text.IntToString | dlna_tester/tester.py:455-456 | `str(i)` is a non-empty numeral starting with '-' exactly for a negative number |
| Text.ParseIntOfIntToString | dlna_tester/tester.py:455-456 | `int(str(i)) == i` |
| Text.Split | dlna_tester/tests.py:538 | `split` gives at least one part |
| Text.JoinSplit | dlna_tester/tests.py:538 | joining the split parts with the separator gives the source text back |
| Text.SplitPartsLackSeparator | dlna_tester/tests.py:538 | no part of a split holds the separator |
| Xml.Named | dlna_tester/tester.py:233 | every element kept is one of the children and matches; never more than the children |
| Xml.NamedComplete | dlna_tester/tester.py:233 | an element is kept exactly when it is one of the children and matches |
| Xml.NamedAppend | dlna_tester/tester.py:233 | the matches of two runs of children are those of the first, then those of the second, so document order is kept |
| Xml.NamedEmpty | dlna_tester/tester.py:233 | `findall` is empty exactly when no child matches |
| Xml.NamedFirst | dlna_tester/tester.py:222 | `find` returns the first matching child |
| Xml.ChildText | dlna_tester/tester.py:221-227 | the text of a child, present exactly when the child exists with non-empty text |
| Xml.FindEither | dlna_tester/tester.py:340-343 | the namespaced lookup, falling back to the bare tag only when it finds nothing |
| Soap.Escape | dlna_tester/tester.py:131 | `html.escape` leaves no raw `<`, `>`, `"` or `'` and never shortens the text |
| Soap.UnescapeEscape | dlna_tester/tester.py:131 | escaping loses nothing: decoding the five references gives the value back |
| Soap.UnescapeEscapeChar | dlna_tester/tester.py:131 | the same for one character, whatever follows it |
| Soap.ArgsXmlConcat | dlna_tester/tester.py:130-133 | argument elements are written in insertion order, one after another |
| Soap.ArgElementLayout | dlna_tester/tester.py:131 | between its two tags an argument element holds exactly the escaped value, with no raw `<`, `>`, quote or apostrophe |
| Soap.Envelope | dlna_tester/tester.py:135-143 | the envelope starts with the XML declaration and contains the argument elements |
| Soap.SoapAction | dlna_tester/tester.py:147 | the header is `"` + service type + `#` + action + `"`, character by character |
| Soap.SoapHeaders | dlna_tester/tester.py:145-149 | exactly the three headers, SOAPAction as above |
| Didl.ParseResource | dlna_tester/tester.py:571-586 | the URL is the element text and each attribute appears exactly when present, so no None-valued key is kept |
| Didl.ParseMetadata | dlna_tester/tester.py:588-610 | no metadata field is present with an empty text |
| Didl.DublinCoreFields | dlna_tester/tester.py:590-595 | each of the five Dublin Core fields is present exactly when its first child element exists with non-empty text, and is then that text |
| Didl.UpnpFields | dlna_tester/tester.py:597-610 | the same for each of the eight UPnP fields, `albumArtURI` included |
| Didl.Resources | dlna_tester/tester.py:570-586 | one resource per `res` child, in order |
| Didl.ParseItem | dlna_tester/tester.py:533-622 | id and parentID default to ""; restricted iff absent or "1"; title and class default to ""; childCount present only for a container with a non-empty integer attribute; resources and metadata as above |
| Didl.ParseAll | dlna_tester/tester.py:520-529 | one media object per element, in order, with the given container flag |
| Didl.ParseDocument | dlna_tester/tester.py:519-531 | every container in document order, then every item in document order |
| Didl.ParseDidlLite | dlna_tester/tester.py:499-531 | unparseable text gives []; otherwise the parsed document's objects, after unescaping when the text holds "&lt;" |
| Didl.ContainersBeforeItems | dlna_tester/tester.py:519-531 | on a document listing item, container, item, container the result is both containers, then both items |
| Didl.MixedDocumentLookups | dlna_tester/tester.py:520-526 | the descendant lookups of that document find the containers and the items in document order |
| Didl.RestrictedDefault | dlna_tester/tester.py:547 | `restricted` is true when absent, false for "0", true for "1" |
| Tester.ServiceInfo.constructor | dlna_tester/tester.py:25-36 | a new service has the five texts given and empty action and state-variable lists |
| Tester.DeviceText | dlna_tester/tester.py:221-223 | `get_text` is "" exactly when the child is absent or has no text |
| Tester.NewServices | dlna_tester/tester.py:230-241 | one fresh service per `service` element, in order, with its texts and empty lists |
| Tester.ParseIcons | dlna_tester/tester.py:244-255 | one icon record per `icon` element, in order |
| Tester.ContentDirectoryIsLastMatch | dlna_tester/tester.py:274-276 | the cached ContentDirectory is the last service whose type contains "ContentDirectory", and the prior one when none does |
| Tester.ContentDirectoryAt | dlna_tester/tester.py:274-276 | a match followed by no later match is the one cached |
| Tester.NoContentDirectoryKeepsPrior | dlna_tester/tester.py:274-276 | with no match the cache is not cleared |
| Tester.ConnectionManagerIsLastMatch | dlna_tester/tester.py:274-278 | the cached ConnectionManager is the last ConnectionManager among services not matching ContentDirectory, and the prior one when none |
| Tester.ConnectionManagerAt | dlna_tester/tester.py:277-278 | a match followed by no later match is the one cached |
| Tester.NoConnectionManagerKeepsPrior | dlna_tester/tester.py:277-278 | with no match the cache is not cleared |
| Tester.NamesOf | dlna_tester/tester.py:302-305 | a name is kept exactly when some `action` element has it as non-empty `name` text; no empty name; never more names than elements |
| Tester.NamesOfAppend | dlna_tester/tester.py:302-305 | the names of two runs of elements are those of the first, then those of the second, so element order is kept |
| Tester.StateVariableOf | dlna_tester/tester.py:310-318 | a state variable exists iff the element has a `name` child; its name is that child's text, its data type the `dataType` child's text (None without one), and `sendEvents` the attribute, "yes" when absent |
| Tester.StateVariablesOf | dlna_tester/tester.py:308-319 | a record is kept exactly when some element yields it by `StateVariableOf`; at most one per element |
| Tester.StateVariablesOfAppend | dlna_tester/tester.py:308-319 | the records of two runs of elements are those of the first, then those of the second, so element order is kept |
| Tester.ParseCounts | dlna_tester/tester.py:480-493 | a malformed count resets both to 0; otherwise each count is parsed, 0 when absent or empty |
| Tester.CountsRoundTrip | dlna_tester/tester.py:480-490 | counts written as decimal numerals are read back exactly |
| Tester.MalformedCountResetsBoth | dlna_tester/tester.py:491-493 | a non-integer NumberReturned also zeroes a well-formed TotalMatches |
| Tester.ExtractListing | dlna_tester/tester.py:463-497 | no Result element or no text gives ([], 0, 0); otherwise the parsed DIDL-Lite items and the parsed counts |
| Tester.ArgNames | dlna_tester/tester.py:130-133 | the argument names, in order |
| Tester.BrowseArgsRoundTrip | dlna_tester/tester.py:447-458 | the Browse arguments are the six names in order, strings verbatim, numbers as numerals that read back as the numbers |
| Tester.SearchArgsRoundTrip | dlna_tester/tester.py:649-661 | the same for Search |
| Tester.CapabilitiesAsWritten | dlna_tester/tester.py:340-344 | as written: None exactly when the namespaced-then-bare element exists without text; "" when it is absent; otherwise its text |
| Tester.UpdateIdOf | dlna_tester/tester.py:385-391 | `int()` of the text of the namespaced-then-bare Id element; None when it is absent or has no text |
| Tester.ProtocolInfoOf | dlna_tester/tester.py:410-419 | Source and Sink are each present exactly when the namespaced-then-bare element exists with a text, and are then that text |
| Tester.Capabilities | dlna_tester/tester.py:340-344 | corrected reading: always a text, the element's text when it has one, and agreeing with the code whenever the code returns a text |
| Tester.EmptyCapabilitiesReadAsFailure | dlna_tester/tester.py:340-344 | an empty SearchCaps element reads as failure as written and as "" corrected |
| Tester.CollectNames | dlna_tester/tester.py:302-305 | the action loop extends the list by exactly the non-empty names, in order |
| Tester.CollectStateVariables | dlna_tester/tester.py:310-319 | the state-variable loop extends the list by exactly the named variables, in order |
| Tester.DLNATester.constructor | dlna_tester/tester.py:75-91 | base URL `http://host:port`; no device, no description URL, no cached services |
| Tester.DLNATester.MakeUrl | dlna_tester/tester.py:103-107 | http/https URLs pass through; anything else is joined to the base URL |
| Tester.DLNATester.SoapRequest | dlna_tester/tester.py:109-159 | a body exactly when the POST of the envelope succeeds, parses and holds a SOAP Body, which is returned |
| Tester.DLNATester.FirstAcceptedIsFirst | dlna_tester/tester.py:180-192 | discovery finds nothing iff every probe fails; otherwise it finds the first accepted path, all earlier ones rejected |
| Tester.DLNATester.DiscoverDeviceDescription | dlna_tester/tester.py:161-192 | returns the first accepted URL, remembers it only when found, changes nothing else |
| Tester.DLNATester.FetchDeviceDescription | dlna_tester/tester.py:194-280 | target URL is the argument, else the remembered one, else discovery; the device is recorded and services cached only when the description loads and has a `device`; nothing else changes on failure |
| Tester.DLNATester.RecordDevice | dlna_tester/tester.py:229-280 | the device record with one service per element and one icon per element, stored, with both caches updated by the last-match rule |
| Tester.DLNATester.CacheServices | dlna_tester/tester.py:273-278 | the cache loop leaves exactly the last-match services |
| Tester.DLNATester.FetchServiceDescription | dlna_tester/tester.py:282-321 | true iff the SCPD loads; then both lists are only appended to (a second call duplicates); on failure nothing changes |
| Tester.DLNATester.AppendActionNames | dlna_tester/tester.py:299-305 | `actions` grows by exactly the non-empty names; `state_variables` is unchanged |
| Tester.DLNATester.AppendStateVariables | dlna_tester/tester.py:307-319 | `state_variables` grows by exactly the named variables; `actions` is unchanged |
| Tester.DLNATester.ContentDirectoryRequest | dlna_tester/tester.py:329-336 | no ContentDirectory cached means no response |
| Tester.DLNATester.GetSearchCapabilities | dlna_tester/tester.py:323-344 | as written: None without a ContentDirectory, when the SOAP call fails, or when the SearchCaps element has no text; "" without a SearchCaps element; else its text, which by `Tester.Capabilities`' own contract is then also the corrected reading |
| Tester.DLNATester.GetSortCapabilities | dlna_tester/tester.py:346-366 | as written: None without a ContentDirectory, when the SOAP call fails, or when the SortCaps element has no text; "" without a SortCaps element; else its text, which by `Tester.Capabilities`' own contract is then also the corrected reading |
| Tester.DLNATester.GetSystemUpdateId | dlna_tester/tester.py:368-391 | None without a response or without an Id element with text; otherwise `int()` of that text, so None exactly when it is not a numeral |
| Tester.DLNATester.GetProtocolInfo | dlna_tester/tester.py:393-420 | (None, None) without a ConnectionManager or when the SOAP call fails; otherwise each of Source and Sink is the text of its namespaced-then-bare element, None when the element is absent or has no text |
| Tester.DLNATester.Listing | dlna_tester/tester.py:460-497 | a listing exactly when there is a body, and then the listing extracted from it |
| Tester.DLNATester.Browse | dlna_tester/tester.py:444-462 | None exactly when there is no ContentDirectory or the Browse SOAP call fails; otherwise `ExtractListing` of the body |
| Tester.DLNATester.Search | dlna_tester/tester.py:646-663 | None exactly when there is no ContentDirectory or the Search SOAP call fails; otherwise `ExtractListing` of the body |
| Tester.DLNATester.FetchResource | dlna_tester/tester.py:699-718 | content exactly on status 200 or 206; no content type without content |
| Tester.DLNATester.CheckResourceHeaders | dlna_tester/tester.py:720-751 | accessible exactly on a HEAD status 200; otherwise every header is None |
| Phases.ConnectivityResults | dlna_tester/tests.py:192-239 | one result after a raising root GET, two after a response; the first is "HTTP Connection", PASS exactly when the root answered |
| Phases.ConnectivityVerdicts | dlna_tester/tests.py:192-239 | a raising root GET gives exactly one FAIL "HTTP Connection" at weight 2.0 and no discovery result; a response gives a PASS and a discovery verdict that passes iff a URL was found |
| Phases.FieldResult | dlna_tester/tests.py:282-297 | PASS iff the field is non-empty, FAIL iff empty |
| Phases.FieldResults | dlna_tester/tests.py:282-297 | one result per required field, in order |
| Phases.UdnResult | dlna_tester/tests.py:299-313 | "UDN Format" at weight 1.0: PASS iff the UDN starts with "uuid:", WARN otherwise |
| Phases.ContentDirectoryServiceResult | dlna_tester/tests.py:315-335 | weight 2.0: PASS iff some service type contains "ContentDirectory", FAIL otherwise |
| Phases.ConnectionManagerServiceResult | dlna_tester/tests.py:337-352 | weight 1.5: PASS iff some service type contains "ConnectionManager", WARN otherwise |
| Phases.IconsResult | dlna_tester/tests.py:354-372 | "Device Icons" at weight 1.0: PASS iff the device has icons, WARN otherwise |
| Phases.DeviceResults | dlna_tester/tests.py:241-372 | one result when the description did not parse, nine otherwise |
| Phases.DeviceTypeResult | dlna_tester/tests.py:256-272 | "Device Type": PASS iff the device type contains "MediaServer", WARN otherwise |
| Phases.DeviceLayout | dlna_tester/tests.py:241-372 | a parsed device gets nine results: type, the four fields, UDN, both services, icons |
| Phases.RequiredFieldVerdicts | dlna_tester/tests.py:274-297 | exactly four "Required Field" results, each PASS iff its field is non-empty and FAIL otherwise |
| Phases.ServiceVerdicts | dlna_tester/tests.py:315-352 | ContentDirectory is PASS/FAIL at 2.0 and ConnectionManager PASS/WARN at 1.5, passing iff a service type contains the name |
| Phases.FieldsInCategory | dlna_tester/tests.py:282-297 | the field results are Device Description results with standard weights |
| Phases.TailInCategory | dlna_tester/tests.py:299-372 | so are the UDN, service and icon results |
| Phases.DeviceInCategory | dlna_tester/tests.py:241-372 | every result of the phase is Device Description with a standard weight |
| Phases.UnparsedDeviceFails | dlna_tester/tests.py:244-254 | an unparsed description gives the single FAIL "Device Description Parsing" at weight 2.0 |
| Phases.RequiredActionResults | dlna_tester/tests.py:406-423 | one verdict per required action, in order |
| Phases.Offered | dlna_tester/tests.py:425-434 | the offered optional actions are some of the wanted ones |
| Phases.OptionalActionsOnlyWhenOffered | dlna_tester/tests.py:425-434 | one PASS at weight 0.5 per offered optional action, in order, and no result for an absent one |
| Phases.OptionalActionsInCategory | dlna_tester/tests.py:425-434 | optional-action results are Content Directory results |
| Phases.ContentDirectoryResults | dlna_tester/tests.py:374-492 | the first result is a SKIP exactly when the service is unavailable; otherwise at least the SCPD verdict, the four required-action verdicts and the three capability and SystemUpdateID verdicts |
| Phases.ScpdResult | dlna_tester/tests.py:388-403 | "SCPD Retrieval": PASS iff the service description was fetched, FAIL otherwise |
| Phases.CapabilitiesResult | dlna_tester/tests.py:436-471 | named after the action: PASS iff the getter returned a text, FAIL iff it returned None |
| Phases.UpdateIdResult | dlna_tester/tests.py:472-490 | "GetSystemUpdateID": PASS iff an id was read, FAIL otherwise |
| Phases.ContentDirectoryVerdicts | dlna_tester/tests.py:374-492 | no service gives one SKIP; otherwise 8 to 12 results, each required action PASS iff offered and FAIL iff not, ending with GetSystemUpdateID, which passes iff an id was read |
| Phases.ContentDirectoryInCategory | dlna_tester/tests.py:374-492 | every result is Content Directory with a standard weight |
| Phases.Protocols | dlna_tester/tests.py:538 | no protocols for an empty Source; otherwise parts that join back to the Source |
| Phases.ConnectionManagerResults | dlna_tester/tests.py:494-564 | one result without the service, two when GetProtocolInfo fails, three when it answers; the first is a SKIP exactly without the service |
| Phases.CmScpdResult | dlna_tester/tests.py:508-523 | "CM SCPD Retrieval": PASS iff the service description was fetched, FAIL otherwise |
| Phases.ConnectionManagerVerdicts | dlna_tester/tests.py:494-564 | no service gives one SKIP; no Source gives a FAIL; a Source gives a PASS and a streaming verdict passing iff some protocol mentions http-get |
| Phases.Containers | dlna_tester/tests.py:629 | every object kept is one of the items and a container; never more than the items |
| Phases.ContainersComplete | dlna_tester/tests.py:629 | an object is kept exactly when it is one of the items and a container |
| Phases.ContainersAppend | dlna_tester/tests.py:629 | the containers of a concatenation are those of each part, in order |
| Phases.DescentBounded | dlna_tester/tests.py:650-671 | the descent visits at most `_max_depth` containers, starts at the given one and always follows the first sub-container of a successful browse |
| Phases.RecursiveBrowse | dlna_tester/tests.py:650-682 | at most two results from depth 1 and at most one from a deeper start, all named "Container Navigation" |
| Phases.RecursiveBrowseCollects | dlna_tester/tests.py:655-658 | `_browsed_items` grows by exactly the items each successful browse of the descent returned, in descent order |
| Phases.NavigationVerdicts | dlna_tester/tests.py:650-682 | only "Container Navigation" results: one or two at depth 1, at most one FAIL from deeper levels |
| Phases.BrowsingResults | dlna_tester/tests.py:566-648 | the first result is "Browse Root", PASS exactly when the service is available and the root browse answered |
| Phases.PaginationResult | dlna_tester/tests.py:611-627 | "Pagination Support": PASS iff the one-object page answered with one object, WARN otherwise |
| Phases.BrowsingVerdicts | dlna_tester/tests.py:566-648 | no service: one SKIP; a failed root browse: one FAIL at 2.0; else a PASS, the root items browsed first, and the pagination probe exactly when TotalMatches > 1 |
| Phases.AfterRootInCategory | dlna_tester/tests.py:594-640 | the results after the root browse are Browsing results |
| Phases.BrowsingInCategory | dlna_tester/tests.py:566-648 | every result of the phase is Browsing with a standard weight |
| Phases.CountWhere | dlna_tester/tests.py:702-704 | a count never exceeds the number of items |
| Phases.CountAll | dlna_tester/tests.py:707-751 | the count equals the length exactly when every item qualifies |
| Phases.CountNone | dlna_tester/tests.py:780-792 | the count is 0 exactly when no item qualifies |
| Phases.MediaItems | dlna_tester/tests.py:699 | an object is kept exactly when it is one of the items and not a container |
| Phases.MediaItemsAppend | dlna_tester/tests.py:699 | the media items of a concatenation are those of each part, in order |
| Phases.ProtocolInfoVerdict | dlna_tester/tests.py:795-811 | "Resource protocolInfo" is judged exactly when the media items have resources; PASS iff every resource has a non-empty protocolInfo, WARN iff some has none |
| Phases.Distinct | dlna_tester/tests.py:815 | the set of classes: every value once, nothing else |
| Phases.Classes | dlna_tester/tests.py:815 | a class is kept exactly when it is non-empty and some object has it; never more than one per object |
| Phases.ClassesAppend | dlna_tester/tests.py:815 | the classes of a concatenation are those of each part, in order |
| Phases.ValidClasses | dlna_tester/tests.py:816 | a class is kept exactly when it is one of the classes and starts with "object." |
| Phases.ValidClassesAppend | dlna_tester/tests.py:816 | the valid classes of a concatenation are those of each part, in order |
| Phases.MetadataResults | dlna_tester/tests.py:684-835 | one SKIP when nothing was browsed; otherwise at least the three item coverage verdicts |
| Phases.Coverage | dlna_tester/tests.py:705-768 | a coverage verdict under the given name: PASS when every counted object qualifies, otherwise the verdict's own shortfall status (FAIL for IDs, WARN for titles, classes and childCount) |
| Phases.ItemIdsVerdict | dlna_tester/tests.py:706-720 | "Item IDs" is PASS iff every object has an id and FAIL iff some has none |
| Phases.MediaResourcesVerdict | dlna_tester/tests.py:770-793 | PASS iff every media item has resources, FAIL iff none has, WARN otherwise |
| Phases.NoValidClasses | dlna_tester/tests.py:815-816 | with no class starting with "object." the valid list is empty |
| Phases.NoValidClassNoVerdict | dlna_tester/tests.py:814-831 | then no class-format result is given at all |
| Phases.Playable | dlna_tester/tests.py:841 | an object is kept exactly when it is one of the items, not a container, and has a resource |
| Phases.PlayableAppend | dlna_tester/tests.py:841 | the playable objects of a concatenation are those of each part, in order |
| Phases.TestedUrls | dlna_tester/tests.py:856-862 | at most one URL per sampled object |
| Phases.TestedUrlsComplete | dlna_tester/tests.py:856-862 | a URL is tested exactly when it is the first-resource URL of a sampled object |
| Phases.TestedUrlsAppend | dlna_tester/tests.py:856-862 | the URLs of a concatenation are those of each part, in order |
| Phases.Sample | dlna_tester/tests.py:852 | `media_items[:5]`: a prefix of the playable objects, of length five or all of them when fewer |
| Phases.MediaResults | dlna_tester/tests.py:837-915 | at most two results; a single SKIP when no browsed non-container object has a resource |
| Phases.MediaSkipOnlyWithoutPlayable | dlna_tester/tests.py:841-849 | a SKIP appears exactly when no browsed non-container object has a resource |
| Phases.NoUrlNoMediaVerdict | dlna_tester/tests.py:852-915 | objects with resources but no usable first-resource URL give no media result at all, not even a SKIP |
| Phases.SampleBounds | dlna_tester/tests.py:852-862 | at most one probe per sampled object, never on an empty URL |
| Phases.AccessibilityResults | dlna_tester/tests.py:867-892 | an accessibility verdict exactly when some URL was tested |
| Phases.RangeResults | dlna_tester/tests.py:894-915 | a range verdict exactly when the first sampled object's first resource has a URL |
| Phases.AccessibilityVerdict | dlna_tester/tests.py:868-892 | one result at weight 1.5: PASS iff every probed URL is accessible, FAIL iff none is |
| Phases.ErrorHandlingResults | dlna_tester/tests.py:926-941 | at most one Protocol Compliance result |
| Phases.HeadResults | dlna_tester/tests.py:943-967 | at most one Protocol Compliance result |
| Phases.ContentTypeResults | dlna_tester/tests.py:969-989 | at most one Protocol Compliance result; its verdict is stated by `DescriptionProbes` |
| Phases.ConsistencyResults | dlna_tester/tests.py:991-1010 | at most one Protocol Compliance result |
| Phases.ErrorHandlingVerdict | dlna_tester/tests.py:926-941 | judged iff a ContentDirectory is cached; PASS iff the invalid Browse returned a body |
| Phases.ConsistencyVerdict | dlna_tester/tests.py:991-1010 | given iff both reads succeed; PASS iff they agree |
| Phases.DescriptionProbes | dlna_tester/tests.py:943-989 | HEAD judged whenever a description URL is known, PASS iff status 200 and WARN otherwise; "XML Content-Type" judged exactly when its GET answered, PASS iff the lowered Content-Type ("" when missing) contains "xml" and WARN otherwise |
| Phases.ProtocolResults | dlna_tester/tests.py:922-1009 | at most four results, and at most two without a ContentDirectory |
| Phases.ProtocolInCategory | dlna_tester/tests.py:922-1009 | every result is Protocol Compliance with a standard weight |
| Suite.ProbeSample | dlna_tester/tests.py:853-866 | the probe loop counts exactly the probed URLs and the accessible ones among them |
| Suite.TestSuite.constructor | dlna_tester/tests.py:62-73 | no results, no browsed objects, maximum depth 3 |
| Suite.TestSuite.AddResult | dlna_tester/tests.py:167-186 | appends exactly the new result and returns it |
| Suite.TestSuite.RunConnectivityTests | dlna_tester/tests.py:192-239 | appends exactly the connectivity results |
| Suite.TestSuite.RunDeviceDescriptionTests | dlna_tester/tests.py:241-372 | appends exactly the device-description results |
| Suite.TestSuite.RunRequiredFields | dlna_tester/tests.py:282-297 | the field loop appends one verdict per field, in order |
| Suite.TestSuite.RunRequiredActions | dlna_tester/tests.py:406-423 | the required-action loop appends one verdict per action, in order |
| Suite.TestSuite.RunOptionalActions | dlna_tester/tests.py:425-434 | the optional-action loop appends a PASS only for offered actions |
| Suite.TestSuite.RunContentDirectoryTests | dlna_tester/tests.py:374-492 | appends exactly the ContentDirectory results |
| Suite.TestSuite.RunConnectionManagerTests | dlna_tester/tests.py:494-564 | appends exactly the ConnectionManager results |
| Suite.TestSuite.RunProtocolInfo | dlna_tester/tests.py:527-564 | appends the GetProtocolInfo and streaming verdicts |
| Suite.TestSuite.TestRecursiveBrowse | dlna_tester/tests.py:650-682 | appends the navigation verdicts and extends `_browsed_items` by the descent's items |
| Suite.TestSuite.RunBrowsingTests | dlna_tester/tests.py:566-648 | appends the browsing results and extends `_browsed_items` accordingly |
| Suite.TestSuite.RunAfterRoot | dlna_tester/tests.py:594-640 | appends the metadata, pagination and navigation verdicts |
| Suite.TestSuite.RunNavigation | dlna_tester/tests.py:628-640 | descends into the first root container, or appends a WARN when there is none |
| Suite.TestSuite.RunMetadataTests | dlna_tester/tests.py:684-831 | appends exactly the metadata results of the browsed objects |
| Suite.TestSuite.RunMediaResourceTests | dlna_tester/tests.py:837-916 | appends exactly the media-resource results |
| Suite.TestSuite.RunRangeProbe | dlna_tester/tests.py:894-916 | appends the range verdict of the first sample's first resource when it has a URL |
| Suite.TestSuite.RunProtocolComplianceTests | dlna_tester/tests.py:922-1010 | appends exactly the protocol-compliance results |
| Phases.RunAll | dlna_tester/tests.py:80-98 | the objects browsed by earlier runs stay at the front of the browsed items |
| Suite.TestSuite.RunAllTests | dlna_tester/tests.py:80-98 | clears the results, runs the eight phases in order and returns their concatenation |
| Suite.TestSuite.GetSummary | dlna_tester/tests.py:134-165 | the summary of the results, with per-category counters counting exactly each category's results |
| Listing.ListContainer | dlna_tester/cli.py:202-213 | counters only grow; a spent budget changes nothing |
| Listing.ListChildren | dlna_tester/cli.py:215-226 | counters only grow |
| Listing.Visit | dlna_tester/cli.py:220-226 | a printed child is counted, and walked into when a container |
| Listing.ChildrenStep | dlna_tester/cli.py:215-226 | within the budget the loop prints the first child, visits it and continues with the rest |
| Listing.ContainerBudget | dlna_tester/cli.py:206-226 | within `max_items` the walk stays within it; at most one browse per container entered plus its own; counters grow by the object lines printed |
| Listing.ChildrenBudget | dlna_tester/cli.py:215-226 | the same for the loop over the children |
| Listing.VisitBudget | dlna_tester/cli.py:220-226 | the same for one child |
| Listing.ContainerLines | dlna_tester/cli.py:202-226 | lines are only appended, all at the container's indent or deeper |
| Listing.ChildrenLines | dlna_tester/cli.py:215-226 | the same for the children loop |
| Listing.VisitLines | dlna_tester/cli.py:220-224 | a child's subtree is printed after its line and deeper than it |
| Listing.ListingBounds | dlna_tester/cli.py:171-172 | from zero counters and `max_items >= 0` the counters never exceed `max_items`, and at most `containers + 1` browses are sent, so the walk ends even on a cyclic tree |
| Listing.FailedBrowseChangesNothing | dlna_tester/cli.py:209-211 | a failed browse changes neither counter nor the printed lines |
| Listing.ChildrenInOrder | dlna_tester/cli.py:215-226 | the objects printed at the children's level are a prefix of the children, in order, and cut short only once the budget is spent; each subtree comes before the next sibling |
| Listing.ContainerInOrder | dlna_tester/cli.py:202-226 | the children of a successful browse are printed at its indent in order, as far as the budget allows |
| Listing.TreeLister.constructor | dlna_tester/cli.py:171-172 | both counters start at 0 and nothing is printed |
| Listing.TreeLister.BrowseRecursive | dlna_tester/cli.py:202-226 | the new counters, browses and lines are those of the functional walk |
| Listing.TreeLister.BrowseChildren | dlna_tester/cli.py:215-226 | the loop over the children, likewise |
| Listing.RunListing | dlna_tester/cli.py:161-234 | exit 1 with no counts when there is no ContentDirectory; otherwise exit 0 with the walk's folder and file totals |
| Cli.StatusRenderingInjective | dlna_tester/cli.py:30-47 | a status can be told from its colour alone and from its icon alone |
| Cli.GradeColor | dlna_tester/cli.py:62-71 | green for A, cyan for B, yellow for C, red otherwise |
| Cli.GradeColorOfPercentage | dlna_tester/cli.py:62-71 | on computed grades: green iff >= 90 %, cyan iff 80-90, yellow iff 70-80, red iff below 70 |
| Cli.Truncate | dlna_tester/cli.py:353-356 | short messages are unchanged; longer ones become their first 57 characters plus "...", exactly 60 |
| Cli.TruncateIdempotent | dlna_tester/cli.py:353-356 | a shown message never exceeds 60, truncating again changes nothing, and it is unchanged iff short |
| Cli.CriticalFailures | dlna_tester/cli.py:422-424 | exactly the FAIL results of weight >= 1.5 |
| Cli.CriticalAreCountedFailures | dlna_tester/cli.py:422-424 | there are never more critical failures than counted failures |
| Cli.ExitCodeRule | dlna_tester/cli.py:284 | once the suite runs: exit 0 iff no result failed, else 1; any critical failure forces 1 (also line 432) |
| Cli.ExitCodeAsWritten | dlna_tester/cli.py:253 | as written, the suite is built with `full_scan` and `max_items`, which it does not accept, so every run exits 2, even one that would exit 0 (also lines 286-288, 303 and 438-441) |
| Cli.ExitCodeAsIntended | dlna_tester/cli.py:284 | with the keywords the suite accepts, the exit code is 0 iff no result failed and 1 otherwise |

## Left out

- HTTP (`httpx`), timeouts, redirects and exceptions: each request is a total function returning a response or a raised error from a fixed server.
- lxml parsing, `html.unescape` and `urljoin`: function-valued parameters; the tree after parsing is modelled, the parser is not.
- Floating point: weights and scores are exact `real`s, so grade boundaries under binary rounding are not captured.
- Console output, ANSI colour blanking for `--no-color`, argparse and JSON output: only the values they show are modelled.
- The per-category and grade lines of the report, and exit codes 130 (interrupt) and 2 (error), which come from exception handlers.
- Header lookups are modelled as exact-name maps; httpx's case-insensitive headers are not modelled.
- The free-form `details` dictionaries of results and the verbose `log`.
- The message text of "Error Handling" relies on lxml element truthiness; it is modelled as "has children". Its status depends only on whether a body came back.
- The UPnP Class Format message lists the first five classes of a Python set, whose order is unspecified. The model uses first-occurrence order.
- Text.Lower: ASCII letters only; Python's Unicode case mapping (which can change the length, as for "İ") is not modelled. Both uses look for ASCII needles ("http-get", "xml").
- Text.ParseInt: only the ASCII digits '0'..'9' are modelled. Python's `int()` also reads every other Unicode decimal digit (Arabic-Indic "١٢", fullwidth "１２"), where the model returns None. This affects the parsed counts, `childCount` and the SystemUpdateID.
- Tester.DLNATester.AppendActionNames: the loop builds the new list as a value (`Tester.CollectNames`) and assigns the field once, rather than appending element by element.
- Tester.DLNATester.AppendStateVariables: the same, through `Tester.CollectStateVariables`.
- The tester's `close`, `__enter__` and `__exit__` only manage the HTTP client.
- `dlna_tester/__init__.py` only re-exports names and is not part of this model.

## Findings

| source | as written | input that shows it | evidently intended | confidence | as-written member | corrected member |
|---|---|---|---|---|---|---|
| dlna_tester/tester.py:340-344 (and 363-366) | `result.text if result is not None else ""` returns None for an element without text | a response `<SearchCaps></SearchCaps>` from a server that supports no search criteria | "" (no capabilities), which the suite prints as "(empty)" (dlna_tester/tests.py:444); instead the action is reported as failed | not executed | Tester.CapabilitiesAsWritten (shown by Tester.EmptyCapabilitiesReadAsFailure) | Tester.Capabilities |
| dlna_tester/cli.py:253 (and 303) | `TestSuite(tester, verbose=verbose, full_scan=full_scan, max_items=max_items)`, while `TestSuite.__init__` (dlna_tester/tests.py:62) takes only `tester` and `verbose` | any run of the interactive or JSON front end: the call raises `TypeError`, the `except Exception` handler (cli.py:286-288, 438-441) exits with 2, and no test runs | the suite runs and the process exits with 0 when nothing failed, 1 otherwise (cli.py:284, 432) | not executed | Cli.ExitCodeAsWritten (on Cli.RunExitCode with Cli.CliKeywords) | Cli.ExitCodeAsIntended, Cli.ExitCodeRule |

`Tester.DLNATester.GetSearchCapabilities` and `GetSortCapabilities` follow the code, through `Tester.CapabilitiesAsWritten`; together with `Tester.Capabilities`' contract, any text they return is also the corrected reading. The suite functions in `phases.dfy` take whatever the tester answered.
