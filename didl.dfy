/**
  DIDL-Lite parsing (tester.py, `_parse_didl_lite` and `_parse_didl_item`):
  the media objects of a Browse or Search result, containers first.
 */
module Didl {
  import opened Wrappers
  import opened Text
  import opened Xml

  /**
    A `res` entry. The source builds a dictionary and drops the keys whose
    value is `None`; here each key is a field and a dropped key is `None`.
   */
  datatype Resource = Resource(
    url: Option<string>,              // the element's text
    protocolInfo: Option<string>,
    size: Option<string>,
    duration: Option<string>,
    bitrate: Option<string>,
    sampleFrequency: Option<string>,
    bitsPerSample: Option<string>,
    nrAudioChannels: Option<string>,
    resolution: Option<string>,
    colorDepth: Option<string>)

  /** The optional Dublin Core and UPnP fields; a field is present only with non-empty text. */
  datatype Metadata = Metadata(
    creator: Option<string>,
    date: Option<string>,
    description: Option<string>,
    publisher: Option<string>,
    rights: Option<string>,
    artist: Option<string>,
    album: Option<string>,
    genre: Option<string>,
    albumArtUri: Option<string>,
    originalTrackNumber: Option<string>,
    playbackCount: Option<string>,
    lastPlaybackTime: Option<string>,
    rating: Option<string>)

  datatype MediaItem = MediaItem(
    id: string,
    parentId: string,
    title: string,
    itemClass: string,
    restricted: bool,
    resources: seq<Resource>,
    metadata: Metadata,
    isContainer: bool,
    childCount: Option<int>)

  /** One `res` element: its text as the URL and each attribute that is present. */
  function ParseResource(res: Element): (r: Resource)
    ensures r.url == res.text
    ensures r.protocolInfo.Some? <==> "protocolInfo" in res.attrs
    ensures r.protocolInfo.Some? ==> r.protocolInfo.value == res.attrs["protocolInfo"]
    ensures r.size == Attr(res, "size") && r.duration == Attr(res, "duration")
    ensures r.bitrate == Attr(res, "bitrate") && r.sampleFrequency == Attr(res, "sampleFrequency")
    ensures r.bitsPerSample == Attr(res, "bitsPerSample") && r.nrAudioChannels == Attr(res, "nrAudioChannels")
    ensures r.resolution == Attr(res, "resolution") && r.colorDepth == Attr(res, "colorDepth")
  {
    Resource(res.text, Attr(res, "protocolInfo"), Attr(res, "size"), Attr(res, "duration"),
             Attr(res, "bitrate"), Attr(res, "sampleFrequency"), Attr(res, "bitsPerSample"),
             Attr(res, "nrAudioChannels"), Attr(res, "resolution"), Attr(res, "colorDepth"))
  }

  /** No metadata field holds an empty string. */
  predicate NonEmptyFields(m: Metadata) {
    && m.creator != Some("") && m.date != Some("") && m.description != Some("")
    && m.publisher != Some("") && m.rights != Some("") && m.artist != Some("")
    && m.album != Some("") && m.genre != Some("") && m.albumArtUri != Some("")
    && m.originalTrackNumber != Some("") && m.playbackCount != Some("")
    && m.lastPlaybackTime != Some("") && m.rating != Some("")
  }

  /**
    A metadata field read from the first child (ns, tag) of `e`: present
    exactly when that child exists with non-empty text, and then that text.
   */
  predicate FieldFrom(f: Option<string>, e: Element, ns: string, tag: string) {
    && (f.Some? <==> Child(e, ns, tag).Some? && HasText(Child(e, ns, tag).value))
    && (f.Some? ==> f == Child(e, ns, tag).value.text)
  }

  /** The allow-listed Dublin Core and UPnP fields, only with text (see `DublinCoreFields` and `UpnpFields`). */
  function ParseMetadata(e: Element): (m: Metadata)
    ensures NonEmptyFields(m)
  {
    Metadata(
      ChildText(e, DcNs, "creator"), ChildText(e, DcNs, "date"), ChildText(e, DcNs, "description"),
      ChildText(e, DcNs, "publisher"), ChildText(e, DcNs, "rights"),
      ChildText(e, UpnpMetaNs, "artist"), ChildText(e, UpnpMetaNs, "album"),
      ChildText(e, UpnpMetaNs, "genre"), ChildText(e, UpnpMetaNs, "albumArtURI"),
      ChildText(e, UpnpMetaNs, "originalTrackNumber"), ChildText(e, UpnpMetaNs, "playbackCount"),
      ChildText(e, UpnpMetaNs, "lastPlaybackTime"), ChildText(e, UpnpMetaNs, "rating"))
  }

  /** The five Dublin Core fields, each read from its own `dc:` element. */
  lemma DublinCoreFields(e: Element)
    ensures var m := ParseMetadata(e);
            && FieldFrom(m.creator, e, DcNs, "creator") && FieldFrom(m.date, e, DcNs, "date")
            && FieldFrom(m.description, e, DcNs, "description") && FieldFrom(m.publisher, e, DcNs, "publisher")
            && FieldFrom(m.rights, e, DcNs, "rights")
  {
  }

  /** The eight UPnP fields, each read from its own `upnp:` element. */
  lemma UpnpFields(e: Element)
    ensures var m := ParseMetadata(e);
            && FieldFrom(m.artist, e, UpnpMetaNs, "artist") && FieldFrom(m.album, e, UpnpMetaNs, "album")
            && FieldFrom(m.genre, e, UpnpMetaNs, "genre") && FieldFrom(m.albumArtUri, e, UpnpMetaNs, "albumArtURI")
            && FieldFrom(m.originalTrackNumber, e, UpnpMetaNs, "originalTrackNumber")
            && FieldFrom(m.playbackCount, e, UpnpMetaNs, "playbackCount")
            && FieldFrom(m.lastPlaybackTime, e, UpnpMetaNs, "lastPlaybackTime")
            && FieldFrom(m.rating, e, UpnpMetaNs, "rating")
  {
  }

  function Resources(es: seq<Element>): (rs: seq<Resource>)
    ensures |rs| == |es| && forall k :: 0 <= k < |es| ==> rs[k] == ParseResource(es[k])
  {
    if es == [] then [] else [ParseResource(es[0])] + Resources(es[1..])
  }

  /** `_parse_didl_item`: the fields of one `container` or `item` element. */
  function ParseItem(e: Element, isContainer: bool): (item: MediaItem)
    ensures item.isContainer == isContainer
    ensures item.id == AttrOr(e, "id", "") && item.parentId == AttrOr(e, "parentID", "")
    ensures item.restricted <==> ("restricted" !in e.attrs || e.attrs["restricted"] == "1")
    ensures item.title == ChildText(e, DcNs, "title").GetOr("")
    ensures item.itemClass == ChildText(e, UpnpMetaNs, "class").GetOr("")
    ensures item.childCount.Some? <==>
              isContainer && "childCount" in e.attrs && ParseInt(e.attrs["childCount"]).Some?
    ensures item.childCount.Some? ==> item.childCount == ParseInt(e.attrs["childCount"])
    ensures item.resources == Resources(ChildrenNamed(e, DidlNs, "res"))
    ensures item.metadata == ParseMetadata(e)
  {
    var cc := Attr(e, "childCount");
    assert cc == Some("") ==> ParseInt("").None?;
    MediaItem(
      AttrOr(e, "id", ""),
      AttrOr(e, "parentID", ""),
      ChildText(e, DcNs, "title").GetOr(""),
      ChildText(e, UpnpMetaNs, "class").GetOr(""),
      AttrOr(e, "restricted", "1") == "1",
      Resources(ChildrenNamed(e, DidlNs, "res")),
      ParseMetadata(e),
      isContainer,
      if isContainer && cc.Some? && cc.value != "" then ParseInt(cc.value) else None)
  }

  function ParseAll(es: seq<Element>, isContainer: bool): (items: seq<MediaItem>)
    ensures |items| == |es|
    ensures forall k :: 0 <= k < |es| ==> items[k] == ParseItem(es[k], isContainer)
    ensures forall k :: 0 <= k < |es| ==> items[k].isContainer == isContainer
  {
    if es == [] then [] else [ParseItem(es[0], isContainer)] + ParseAll(es[1..], isContainer)
  }

  /** The media objects of a parsed document: every container, then every item, each in document order. */
  function ParseDocument(root: Element): (items: seq<MediaItem>)
    ensures var cs, its := FindAll(root, DidlNs, "container"), FindAll(root, DidlNs, "item");
            && |items| == |cs| + |its|
            && (forall k :: 0 <= k < |items| ==> (items[k].isContainer <==> k < |cs|))
            && (forall k :: 0 <= k < |cs| ==> items[k] == ParseItem(cs[k], true))
            && items[|cs|..] == ParseAll(its, false)
  {
    var a, b := ParseAll(FindAll(root, DidlNs, "container"), true), ParseAll(FindAll(root, DidlNs, "item"), false);
    assert (a + b)[|a|..] == b;
    a + b
  }

  /** The text handed to the parser: HTML-unescaped when it holds "&lt;". */
  function DidlSource(didlText: string, unescape: string -> string): string {
    if Contains(didlText, "&lt;") then unescape(didlText) else didlText
  }

  /**
    `_parse_didl_lite`: `unescape` stands for `html.unescape` and `parse` for
    lxml's parser (`None` when it raises); a document that does not parse
    holds no media objects.
   */
  function ParseDidlLite(didlText: string, unescape: string -> string, parse: string -> Option<Element>)
    : (items: seq<MediaItem>)
    ensures parse(DidlSource(didlText, unescape)).None? ==> items == []
    ensures parse(DidlSource(didlText, unescape)).Some? ==>
              items == ParseDocument(parse(DidlSource(didlText, unescape)).value)
  {
    match parse(DidlSource(didlText, unescape))
    case None => []
    case Some(root) => ParseDocument(root)
  }

  // ---------------------------------------------------------------------
  // Worked examples
  // ---------------------------------------------------------------------

  function Node(tag: string, id: string): Element {
    Element(DidlNs, tag, map["id" := id], None, [])
  }

  /** A document listing item I1, container C1, item I2 and container C2, in that order. */
  function MixedDocument(): Element {
    Element(DidlNs, "DIDL-Lite", map[], None,
            [Node("item", "I1"), Node("container", "C1"), Node("item", "I2"), Node("container", "C2")])
  }

  lemma MixedDocumentTree()
    ensures Descendants(MixedDocument())
            == [Node("item", "I1"), Node("container", "C1"), Node("item", "I2"), Node("container", "C2")]
  {
    var i1, c1, i2, c2 := Node("item", "I1"), Node("container", "C1"), Node("item", "I2"), Node("container", "C2");
    assert Forest([c2]) == [c2];
    assert Forest([i2, c2]) == [i2, c2];
    assert Forest([c1, i2, c2]) == [c1, i2, c2];
  }

  lemma MixedDocumentLookups()
    ensures FindAll(MixedDocument(), DidlNs, "container") == [Node("container", "C1"), Node("container", "C2")]
    ensures FindAll(MixedDocument(), DidlNs, "item") == [Node("item", "I1"), Node("item", "I2")]
  {
    var i1, c1, i2, c2 := Node("item", "I1"), Node("container", "C1"), Node("item", "I2"), Node("container", "C2");
    MixedDocumentTree();
    assert "item" != "container" by { assert "item"[0] != "container"[0]; }
    var ds := [i1, c1, i2, c2];
    assert ds[1..] == [c1, i2, c2] && ds[1..][1..] == [i2, c2] && ds[1..][1..][1..] == [c2];
    assert Named([c2], DidlNs, "container") == [c2];
    assert Named([i2, c2], DidlNs, "container") == [c2];
    assert Named([c1, i2, c2], DidlNs, "container") == [c1, c2];
    assert Named([c2], DidlNs, "item") == [];
    assert Named([i2, c2], DidlNs, "item") == [i2];
    assert Named([c1, i2, c2], DidlNs, "item") == [i2];
  }

  /** Containers come first, each group in document order: the mixed document gives C1, C2, I1, I2. */
  lemma ContainersBeforeItems(unescape: string -> string, parse: string -> Option<Element>, text: string)
    requires !Contains(text, "&lt;") && parse(text) == Some(MixedDocument())
    ensures var r := ParseDidlLite(text, unescape, parse);
            |r| == 4 && r[0].id == "C1" && r[1].id == "C2" && r[2].id == "I1" && r[3].id == "I2"
            && r[0].isContainer && r[1].isContainer && !r[2].isContainer && !r[3].isContainer
  {
    MixedDocumentLookups();
    var r := ParseDidlLite(text, unescape, parse);
    assert r == ParseDocument(MixedDocument());
    assert r[2..] == ParseAll([Node("item", "I1"), Node("item", "I2")], false);
    assert r[2] == r[2..][0] && r[3] == r[2..][1];
  }

  /** `restricted` defaults to true; "0" reads as false and "1" as true. */
  lemma RestrictedDefault(e: Element)
    ensures ParseItem(e.(attrs := e.attrs - {"restricted"}), false).restricted
    ensures !ParseItem(e.(attrs := e.attrs["restricted" := "0"]), false).restricted
    ensures ParseItem(e.(attrs := e.attrs["restricted" := "1"]), false).restricted
  {
  }
}
