/**
  Building the UPnP SOAP 1.1 request the tester sends: the escaped argument
  elements, the envelope around them and the request headers
  (tester.py, `_soap_request`).
 */
module Soap {
  import opened Text

  /** Python's `html.escape(s)` (quote=True) on one character. */
  function EscapeChar(c: char): string {
    if c == '&' then "&amp;"
    else if c == '<' then "&lt;"
    else if c == '>' then "&gt;"
    else if c == '"' then "&quot;"
    else if c == '\'' then "&#x27;"
    else [c]
  }

  /** Python's `html.escape(s)`. */
  function Escape(s: string): (r: string)
    ensures |r| >= |s|
    ensures forall k :: 0 <= k < |r| ==> r[k] !in "<>\"'"
  {
    if s == [] then [] else EscapeChar(s[0]) + Escape(s[1..])
  }

  /** Decodes exactly the five references `Escape` writes; any other text is kept. */
  function UnescapeFive(s: string): string
    decreases |s|
  {
    if s == [] then []
    else if StartsWith(s, "&amp;") then "&" + UnescapeFive(s[5..])
    else if StartsWith(s, "&lt;") then "<" + UnescapeFive(s[4..])
    else if StartsWith(s, "&gt;") then ">" + UnescapeFive(s[4..])
    else if StartsWith(s, "&quot;") then "\"" + UnescapeFive(s[6..])
    else if StartsWith(s, "&#x27;") then "'" + UnescapeFive(s[6..])
    else [s[0]] + UnescapeFive(s[1..])
  }

  lemma Mismatch(t: string, p: string, k: nat)
    requires k < |p| && k < |t| && t[k] != p[k]
    ensures !StartsWith(t, p)
  {
  }

  /** Decoding an escaped character gives the character back, whatever follows it. */
  lemma UnescapeEscapeChar(c: char, rest: string)
    ensures UnescapeFive(EscapeChar(c) + rest) == [c] + UnescapeFive(rest)
  {
    var e := EscapeChar(c);
    var t := e + rest;
    assert t[..|e|] == e && t[|e|..] == rest;
    if e == [c] {
      assert t[0] == c;
      Mismatch(t, "&amp;", 0);
      Mismatch(t, "&lt;", 0);
      Mismatch(t, "&gt;", 0);
      Mismatch(t, "&quot;", 0);
      Mismatch(t, "&#x27;", 0);
    } else if c != '&' {
      assert t[1] == e[1];
      Mismatch(t, "&amp;", 1);
      if c != '<' {
        Mismatch(t, "&lt;", 1);
        if c != '>' {
          Mismatch(t, "&gt;", 1);
          if c != '"' {
            Mismatch(t, "&quot;", 1);
          }
        }
      }
    }
  }

  /** Escaping loses nothing: the escaped value decodes to the original value. */
  lemma {:induction false} UnescapeEscape(s: string)
    ensures UnescapeFive(Escape(s)) == s
    decreases |s|
  {
    if s != [] {
      UnescapeEscape(s[1..]);
      UnescapeEscapeChar(s[0], Escape(s[1..]));
    }
  }

  /** One argument element `<name>escape(value)</name>`. */
  function ArgElement(name: string, value: string): string {
    "<" + name + ">" + Escape(value) + "</" + name + ">"
  }

  /** The argument elements, in the order of the argument dictionary. */
  function ArgsXml(args: seq<(string, string)>): string {
    if args == [] then "" else ArgElement(args[0].0, args[0].1) + ArgsXml(args[1..])
  }

  /** Arguments are written in insertion order, one element after another. */
  lemma {:induction false} ArgsXmlConcat(a: seq<(string, string)>, b: seq<(string, string)>)
    ensures ArgsXml(a + b) == ArgsXml(a) + ArgsXml(b)
  {
    if a == [] {
      assert a + b == b;
    } else {
      assert (a + b)[0] == a[0] && (a + b)[1..] == a[1..] + b;
      ArgsXmlConcat(a[1..], b);
    }
  }

  /** The argument elements carry no raw `<`, `>`, quote or apostrophe except their own tags. */
  lemma ArgElementLayout(name: string, value: string)
    ensures var x := ArgElement(name, value);
            x[|name| + 2..|x| - |name| - 3] == Escape(value)
            && forall k :: |name| + 2 <= k < |x| - |name| - 3 ==> x[k] !in "<>\"'"
  {
  }

  const XmlDeclaration := "<?xml version=\"1.0\" encoding=\"utf-8\"?>\n"

  /** The text before the argument elements. */
  function EnvelopeHead(action: string, serviceType: string): string {
    XmlDeclaration
    + "<s:Envelope xmlns:s=\"http://schemas.xmlsoap.org/soap/envelope/\"\n"
    + "            s:encodingStyle=\"http://schemas.xmlsoap.org/soap/encoding/\">\n"
    + "    <s:Body>\n"
    + "        <u:" + action + " xmlns:u=\"" + serviceType + "\">\n"
    + "            "
  }

  /** The text after the argument elements. */
  function EnvelopeTail(action: string): string {
    "\n"
    + "        </u:" + action + ">\n"
    + "    </s:Body>\n"
    + "</s:Envelope>"
  }

  /** The SOAP envelope: the action element in the service's namespace around the arguments. */
  function Envelope(action: string, serviceType: string, args: seq<(string, string)>): (env: string)
    ensures StartsWith(env, XmlDeclaration)
    ensures Contains(env, ArgsXml(args))
  {
    var head, body := EnvelopeHead(action, serviceType), ArgsXml(args);
    var env := head + body + EnvelopeTail(action);
    assert env[..|XmlDeclaration|] == XmlDeclaration;
    assert env[|head|..|head| + |body|] == body;
    ContainsAt(env, body, |head|);
    env
  }

  /** The SOAPAction header value `"<service type>#<action>"`, quotes included. */
  function SoapAction(serviceType: string, action: string): (h: string)
    ensures |h| == |serviceType| + |action| + 3
    ensures h[0] == '"' && h[|h| - 1] == '"'
    ensures h[1..|serviceType| + 1] == serviceType && h[|serviceType| + 1] == '#'
    ensures h[|serviceType| + 2..|h| - 1] == action
  {
    "\"" + serviceType + "#" + action + "\""
  }

  /** The request headers of every SOAP call. */
  function SoapHeaders(serviceType: string, action: string): (h: map<string, string>)
    ensures h.Keys == {"Content-Type", "SOAPAction", "User-Agent"}
    ensures h["SOAPAction"] == SoapAction(serviceType, action)
  {
    map["Content-Type" := "text/xml; charset=\"utf-8\"",
        "SOAPAction" := SoapAction(serviceType, action),
        "User-Agent" := "DLNA-Tester/1.0 UPnP/1.0"]
  }
}
