/**
  An abstract XML element tree standing for lxml's parsed documents: every
  element has a namespace, a local name, attributes, an optional text (lxml's
  `.text`, `None` when the element has no leading text) and its children in
  document order. Element paths become the functions below.
 */
module Xml {
  import opened Wrappers

  datatype Element = Element(
    ns: string,               // namespace URI, "" for an element in no namespace
    tag: string,              // local name
    attrs: map<string, string>,
    text: Option<string>,
    children: seq<Element>)

  /** The namespaces of tester.py (its NS table) and the two service namespaces. */
  const DeviceNs := "urn:schemas-upnp-org:device-1-0"
  const ServiceNs := "urn:schemas-upnp-org:service-1-0"
  const SoapNs := "http://schemas.xmlsoap.org/soap/envelope/"
  const DidlNs := "urn:schemas-upnp-org:metadata-1-0/DIDL-Lite/"
  const DcNs := "http://purl.org/dc/elements/1.1/"
  const UpnpMetaNs := "urn:schemas-upnp-org:metadata-1-0/upnp/"
  const ContentDirectory1Ns := "urn:schemas-upnp-org:service:ContentDirectory:1"
  const ConnectionManager1Ns := "urn:schemas-upnp-org:service:ConnectionManager:1"

  predicate Is(e: Element, ns: string, tag: string) {
    e.ns == ns && e.tag == tag
  }

  /** lxml's `e.get(name)`. */
  function Attr(e: Element, name: string): Option<string> {
    if name in e.attrs then Some(e.attrs[name]) else None
  }

  /** lxml's `e.get(name, default)`. */
  function AttrOr(e: Element, name: string, default: string): string {
    Attr(e, name).GetOr(default)
  }

  /** lxml's truthiness test `e.text` (present and non-empty). */
  predicate HasText(e: Element) {
    e.text.Some? && e.text.value != ""
  }

  /** The children of `es` named (ns, tag), in order. */
  function Named(es: seq<Element>, ns: string, tag: string): (r: seq<Element>)
    ensures |r| <= |es|
    ensures forall k :: 0 <= k < |r| ==> Is(r[k], ns, tag) && r[k] in es
  {
    if es == [] then []
    else if Is(es[0], ns, tag) then [es[0]] + Named(es[1..], ns, tag)
    else Named(es[1..], ns, tag)
  }

  /** The filter keeps every match: it is empty exactly when nothing matches. */
  lemma {:induction false} NamedEmpty(es: seq<Element>, ns: string, tag: string)
    ensures Named(es, ns, tag) == [] <==> forall k :: 0 <= k < |es| ==> !Is(es[k], ns, tag)
  {
    if es != [] {
      NamedEmpty(es[1..], ns, tag);
      assert forall k :: 1 <= k < |es| ==> es[k] == es[1..][k - 1];
    }
  }

  /** Every match is kept: an element is kept exactly when it is one of `es` and matches. */
  lemma {:induction false} NamedComplete(es: seq<Element>, ns: string, tag: string)
    ensures forall e :: e in Named(es, ns, tag) <==> e in es && Is(e, ns, tag)
  {
    if es != [] {
      NamedComplete(es[1..], ns, tag);
      assert es == [es[0]] + es[1..];
    }
  }

  /** Order is kept: the matches of a concatenation are those of each part, in order. */
  lemma {:induction false} NamedAppend(a: seq<Element>, b: seq<Element>, ns: string, tag: string)
    ensures Named(a + b, ns, tag) == Named(a, ns, tag) + Named(b, ns, tag)
    decreases |a|
  {
    if a != [] {
      assert (a + b)[0] == a[0] && (a + b)[1..] == a[1..] + b;
      NamedAppend(a[1..], b, ns, tag);
    } else {
      assert a + b == b;
    }
  }

  /** The first element kept is the first match. */
  lemma {:induction false} NamedFirst(es: seq<Element>, ns: string, tag: string, i: nat)
    requires i < |es| && Is(es[i], ns, tag)
    requires forall j :: 0 <= j < i ==> !Is(es[j], ns, tag)
    ensures |Named(es, ns, tag)| > 0 && Named(es, ns, tag)[0] == es[i]
  {
    if i > 0 {
      assert forall j :: 0 <= j < i - 1 ==> es[1..][j] == es[j + 1];
      NamedFirst(es[1..], ns, tag, i - 1);
    }
  }

  /** lxml's `e.findall("ns:tag")`: the matching direct children. */
  function ChildrenNamed(e: Element, ns: string, tag: string): seq<Element> {
    Named(e.children, ns, tag)
  }

  /** lxml's `e.find("ns:tag")`: the first matching direct child. */
  function Child(e: Element, ns: string, tag: string): Option<Element> {
    var r := Named(e.children, ns, tag);
    if |r| > 0 then Some(r[0]) else None
  }

  /**
    The text of the first child (ns, tag) when that child exists and its text
    is non-empty: the tester's `child.text if child is not None and child.text`.
   */
  function ChildText(e: Element, ns: string, tag: string): (r: Option<string>)
    ensures r.Some? <==> Child(e, ns, tag).Some? && HasText(Child(e, ns, tag).value)
    ensures r.Some? ==> r == Child(e, ns, tag).value.text && r.value != ""
  {
    match Child(e, ns, tag)
    case Some(f) => if HasText(f) then f.text else None
    case None => None
  }

  /** All elements strictly below `e`, in document order. */
  function Descendants(e: Element): seq<Element>
    decreases e, 1
  {
    Forest(e.children)
  }

  /** The elements of the trees `es` and everything below them, in document order. */
  function Forest(es: seq<Element>): seq<Element>
    decreases es, 0
  {
    if es == [] then [] else [es[0]] + Descendants(es[0]) + Forest(es[1..])
  }

  /** lxml's `e.findall(".//ns:tag")`: matching descendants in document order. */
  function FindAll(e: Element, ns: string, tag: string): seq<Element> {
    Named(Descendants(e), ns, tag)
  }

  /** lxml's `e.find(".//ns:tag")`: the first matching descendant. */
  function Find(e: Element, ns: string, tag: string): Option<Element> {
    var r := FindAll(e, ns, tag);
    if |r| > 0 then Some(r[0]) else None
  }

  /**
    The lookup the tester uses on SOAP bodies: first `.//{ns}tag`, and only
    when that finds nothing, the bare `.//tag`.
   */
  function FindEither(e: Element, ns: string, tag: string): (r: Option<Element>)
    ensures Find(e, ns, tag).Some? ==> r == Find(e, ns, tag)
    ensures Find(e, ns, tag).None? ==> r == Find(e, "", tag)
  {
    Find(e, ns, tag).OrElse(Find(e, "", tag))
  }
}
