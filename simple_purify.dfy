/**
 * The page's own HTML sanitizer, applied to rendered markdown. The HTML is
 * given already parsed, as a tree of elements, attributes and text; the
 * sanitizer walks the top-level elements, replaces every element whose tag
 * is not allowed by a text node holding its text, drops the attributes that
 * are not allowed, forces links to a safe target, and descends into the
 * children of what it keeps.
 */
module SimplePurify {
  import opened Common
  import opened Strings
  import Ui

  /**
   * An attribute. The HTML parser reports each name once and in lower
   * case, and the DOM lower-cases the names given to `getAttribute` and
   * `setAttribute` on such elements; here names are compared exactly,
   * which agrees with the DOM on the lower-case names the parser gives and
   * the sanitizer uses.
   */
  datatype Attr = Attr(name: string, value: string)

  /** A DOM node as the HTML parser produces it. */
  datatype Node = Element(tagName: string, attributes: seq<Attr>, children: seq<Node>) | Text(text: string)

  const DefaultAllowedTags := [
    "p", "br", "strong", "em", "u", "code", "pre", "blockquote",
    "h1", "h2", "h3", "h4", "h5", "h6", "ul", "ol", "li", "a",
    "table", "thead", "tbody", "tr", "th", "td", "div"]

  const DefaultAllowedAttrs := ["href", "target", "rel", "class", "title", "align"]

  /** The `options` argument; a missing key is `None`. */
  datatype SanitizeOptions = SanitizeOptions(allowedTags: Option<seq<string>>, allowedAttrs: Option<seq<string>>)

  /** `options?.ALLOWED_TAGS || [...]`: any given array is used, an empty one included, since arrays are truthy. */
  function AllowedTags(options: Option<SanitizeOptions>): seq<string> {
    if options.Some? && options.value.allowedTags.Some? then options.value.allowedTags.value else DefaultAllowedTags
  }

  function AllowedAttrs(options: Option<SanitizeOptions>): seq<string> {
    if options.Some? && options.value.allowedAttrs.Some? then options.value.allowedAttrs.value else DefaultAllowedAttrs
  }

  /** `textContent`: the text of every descendant text node, in document order. */
  function TextContent(n: Node): string
    decreases n, 1
  {
    match n
    case Text(t) => t
    case Element(_, _, cs) => TextContents(n, cs)
  }

  function TextContents(parent: Node, cs: seq<Node>): string
    requires forall i :: 0 <= i < |cs| ==> cs[i] < parent
    decreases parent, 0, |cs|
  {
    if cs == [] then "" else TextContent(cs[0]) + TextContents(parent, cs[1..])
  }

  // ---------------------------------------------------------------------
  // Attributes
  // ---------------------------------------------------------------------

  /** `getAttribute`: the value of the first attribute of that name. */
  function GetAttribute(attributes: seq<Attr>, name: string): Option<string>
    decreases |attributes|
  {
    if attributes == [] then None
    else if attributes[0].name == name then Some(attributes[0].value)
    else GetAttribute(attributes[1..], name)
  }

  /** `setAttribute`: an attribute of that name gets the value in place; otherwise it is appended. */
  function SetAttribute(attributes: seq<Attr>, name: string, value: string): seq<Attr>
    decreases |attributes|
  {
    if attributes == [] then [Attr(name, value)]
    else if attributes[0].name == name then [Attr(name, value)] + attributes[1..]
    else [attributes[0]] + SetAttribute(attributes[1..], name, value)
  }

  /** Setting an attribute is what reading it afterwards returns; other attributes read as before. */
  lemma {:induction false} GetSet(attributes: seq<Attr>, name: string, value: string, other: string)
    ensures GetAttribute(SetAttribute(attributes, name, value), name) == Some(value)
    ensures other != name ==> GetAttribute(SetAttribute(attributes, name, value), other) == GetAttribute(attributes, other)
    decreases |attributes|
  {
    if attributes != [] && attributes[0].name != name {
      GetSet(attributes[1..], name, value, other);
    }
  }

  /** Setting an attribute to the value it already has changes nothing. */
  lemma {:induction false} SetUnchanged(attributes: seq<Attr>, name: string, value: string)
    requires GetAttribute(attributes, name) == Some(value)
    ensures SetAttribute(attributes, name, value) == attributes
    decreases |attributes|
  {
    if attributes[0].name != name {
      SetUnchanged(attributes[1..], name, value);
    }
  }

  /** Every attribute after setting is the one set or one that was there. */
  lemma {:induction false} SetNames(attributes: seq<Attr>, name: string, value: string)
    ensures forall a :: a in SetAttribute(attributes, name, value) ==> a.name == name || a in attributes
    decreases |attributes|
  {
    if attributes != [] && attributes[0].name != name {
      SetNames(attributes[1..], name, value);
    }
  }

  predicate AttrAllowed(a: Attr, allowedAttrs: seq<string>) {
    AsciiLower(a.name) in allowedAttrs
  }

  /** The attribute `forEach`: an attribute stays when its lower-cased name is allowed. */
  function FilterAttrs(attributes: seq<Attr>, allowedAttrs: seq<string>): seq<Attr>
    decreases |attributes|
  {
    if attributes == [] then []
    else
      var init := FilterAttrs(attributes[..|attributes| - 1], allowedAttrs);
      var last := attributes[|attributes| - 1];
      if AttrAllowed(last, allowedAttrs) then init + [last] else init
  }

  /** What stays is exactly the allowed attributes. */
  lemma {:induction false} FilterMembers(attributes: seq<Attr>, allowedAttrs: seq<string>)
    ensures forall a :: a in FilterAttrs(attributes, allowedAttrs) <==> a in attributes && AttrAllowed(a, allowedAttrs)
    decreases |attributes|
  {
    if attributes != [] {
      var init := attributes[..|attributes| - 1];
      FilterMembers(init, allowedAttrs);
      assert attributes == init + [attributes[|attributes| - 1]];
    }
  }

  /** Filtering keeps an allowed attribute's value: reading it gives what the element had. */
  lemma {:induction false} FilterKeepsAllowed(attributes: seq<Attr>, allowedAttrs: seq<string>, name: string)
    requires AsciiLower(name) in allowedAttrs
    ensures GetAttribute(FilterAttrs(attributes, allowedAttrs), name) == GetAttribute(attributes, name)
    decreases |attributes|
  {
    if attributes != [] {
      FilterKeepsAllowed(attributes[1..], allowedAttrs, name);
      FilterCons(attributes, allowedAttrs);
      var rest := FilterAttrs(attributes[1..], allowedAttrs);
      if attributes[0].name == name {
        assert AttrAllowed(attributes[0], allowedAttrs);
        assert ([attributes[0]] + rest)[0] == attributes[0];
      } else if AttrAllowed(attributes[0], allowedAttrs) {
        assert ([attributes[0]] + rest)[1..] == rest;
      } else {
        assert [] + rest == rest;
      }
    }
  }

  /** Filtering seen from the front of the list. */
  lemma {:induction false} FilterCons(attributes: seq<Attr>, allowedAttrs: seq<string>)
    requires attributes != []
    ensures FilterAttrs(attributes, allowedAttrs)
      == (if AttrAllowed(attributes[0], allowedAttrs) then [attributes[0]] else []) + FilterAttrs(attributes[1..], allowedAttrs)
    decreases |attributes|
  {
    var last := attributes[|attributes| - 1];
    var tail := if AttrAllowed(last, allowedAttrs) then [last] else [];
    var head := if AttrAllowed(attributes[0], allowedAttrs) then [attributes[0]] else [];
    if |attributes| == 1 {
      assert attributes[1..] == [] && attributes[..0] == [];
    } else {
      var init := attributes[..|attributes| - 1];
      FilterCons(init, allowedAttrs);
      assert init[0] == attributes[0];
      assert init[1..] == attributes[1..][..|attributes[1..]| - 1];
      assert FilterAttrs(attributes, allowedAttrs) == FilterAttrs(init, allowedAttrs) + tail;
      assert FilterAttrs(attributes[1..], allowedAttrs) == FilterAttrs(init[1..], allowedAttrs) + tail;
      assert FilterAttrs(init, allowedAttrs) == head + FilterAttrs(init[1..], allowedAttrs);
    }
  }

  /** A list whose attributes are all allowed is left as it is. */
  lemma {:induction false} FilterAllAllowed(attributes: seq<Attr>, allowedAttrs: seq<string>)
    requires forall i :: 0 <= i < |attributes| ==> AttrAllowed(attributes[i], allowedAttrs)
    ensures FilterAttrs(attributes, allowedAttrs) == attributes
    decreases |attributes|
  {
    if attributes != [] {
      var init := attributes[..|attributes| - 1];
      FilterAllAllowed(init, allowedAttrs);
      assert init + [attributes[|attributes| - 1]] == attributes;
    }
  }

  /** The link handling: a missing, empty or non-web `href` becomes '#', then the target and rel are set. */
  function FixLink(attributes: seq<Attr>): seq<Attr> {
    var href := GetAttribute(attributes, "href");
    var withHref := if !(href.Some? && href.value != "") || !Ui.IsWebUrl(href.value) then SetAttribute(attributes, "href", "#") else attributes;
    SetAttribute(SetAttribute(withHref, "target", "_blank"), "rel", "noopener noreferrer")
  }

  /**
   * A fixed link goes where the renderer's link callback would send it,
   * opens in a new tab without a referrer, and keeps every other attribute.
   */
  lemma FixLinkReads(attributes: seq<Attr>, other: string)
    ensures GetAttribute(FixLink(attributes), "href") == Some(Ui.SafeHref(GetAttribute(attributes, "href")))
    ensures GetAttribute(FixLink(attributes), "target") == Some("_blank")
    ensures GetAttribute(FixLink(attributes), "rel") == Some("noopener noreferrer")
    ensures other != "href" && other != "target" && other != "rel" ==>
      GetAttribute(FixLink(attributes), other) == GetAttribute(attributes, other)
  {
    var href := GetAttribute(attributes, "href");
    var withHref := if !(href.Some? && href.value != "") || !Ui.IsWebUrl(href.value) then SetAttribute(attributes, "href", "#") else attributes;
    GetSet(attributes, "href", "#", other);
    GetSet(withHref, "target", "_blank", "href");
    GetSet(withHref, "target", "_blank", other);
    var targeted := SetAttribute(withHref, "target", "_blank");
    GetSet(targeted, "rel", "noopener noreferrer", "href");
    GetSet(targeted, "rel", "noopener noreferrer", "target");
    GetSet(targeted, "rel", "noopener noreferrer", other);
  }

  /** Fixing a fixed link changes nothing. */
  lemma FixLinkIdempotent(attributes: seq<Attr>)
    ensures FixLink(FixLink(attributes)) == FixLink(attributes)
  {
    var fixed := FixLink(attributes);
    FixLinkReads(attributes, "");
    var h := Ui.SafeHref(GetAttribute(attributes, "href"));
    assert h == "#" || Ui.IsWebUrl(h);
    if !Ui.IsWebUrl(h) {
      SetUnchanged(fixed, "href", "#");
    }
    SetUnchanged(fixed, "target", "_blank");
    SetUnchanged(fixed, "rel", "noopener noreferrer");
  }

  /** The attributes of a fixed link are the given ones and the three it sets. */
  lemma FixLinkNames(attributes: seq<Attr>)
    ensures forall a :: a in FixLink(attributes) ==> a in attributes || a.name == "href" || a.name == "target" || a.name == "rel"
  {
    var href := GetAttribute(attributes, "href");
    var withHref := if !(href.Some? && href.value != "") || !Ui.IsWebUrl(href.value) then SetAttribute(attributes, "href", "#") else attributes;
    SetNames(attributes, "href", "#");
    SetNames(withHref, "target", "_blank");
    SetNames(SetAttribute(withHref, "target", "_blank"), "rel", "noopener noreferrer");
  }

  // ---------------------------------------------------------------------
  // The tree
  // ---------------------------------------------------------------------

  /**
   * `cleanElement` as a function of the node: text is left alone; an
   * element whose lower-cased tag is not allowed becomes its text, and its
   * descendants are not visited; an allowed one keeps its tag, its allowed
   * attributes and its cleaned children, in order.
   */
  function Clean(n: Node, allowedTags: seq<string>, allowedAttrs: seq<string>): (r: Node)
    decreases n
  {
    match n
    case Text(_) => n
    case Element(tag, attributes, cs) =>
      if AsciiLower(tag) !in allowedTags then Text(TextContent(n))
      else
        Element(tag, CleanedAttrs(tag, attributes, allowedAttrs), seq(|cs|, i requires 0 <= i < |cs| => Clean(cs[i], allowedTags, allowedAttrs)))
  }

  /** The attributes an allowed element ends with: the allowed ones, and for a link the fixed target. */
  function CleanedAttrs(tag: string, attributes: seq<Attr>, allowedAttrs: seq<string>): seq<Attr> {
    var kept := FilterAttrs(attributes, allowedAttrs);
    if AsciiLower(tag) == "a" then FixLink(kept) else kept
  }

  /** When the three link attributes are allowed, cleaning cleaned attributes changes nothing. */
  lemma CleanedAttrsStable(tag: string, attributes: seq<Attr>, allowedAttrs: seq<string>)
    requires "href" in allowedAttrs && "target" in allowedAttrs && "rel" in allowedAttrs
    ensures var cleaned := CleanedAttrs(tag, attributes, allowedAttrs);
      CleanedAttrs(tag, cleaned, allowedAttrs) == cleaned
  {
    var kept := FilterAttrs(attributes, allowedAttrs);
    FilterMembers(attributes, allowedAttrs);
    if AsciiLower(tag) == "a" {
      var fixed := FixLink(kept);
      FixLinkNames(kept);
      LinkNamesLower();
      assert forall i :: 0 <= i < |fixed| ==> AttrAllowed(fixed[i], allowedAttrs) by {
        forall i | 0 <= i < |fixed| ensures AttrAllowed(fixed[i], allowedAttrs) {
          assert fixed[i] in fixed;
        }
      }
      FilterAllAllowed(fixed, allowedAttrs);
      FixLinkIdempotent(kept);
    } else {
      assert forall i :: 0 <= i < |kept| ==> AttrAllowed(kept[i], allowedAttrs) by {
        forall i | 0 <= i < |kept| ensures AttrAllowed(kept[i], allowedAttrs) {
          assert kept[i] in kept;
        }
      }
      FilterAllAllowed(kept, allowedAttrs);
    }
  }

  /** `sanitize` on the parsed top-level nodes, with the lists the options give. */
  function Sanitized(nodes: seq<Node>, options: Option<SanitizeOptions>): (r: seq<Node>)
    ensures |r| == |nodes|
  {
    seq(|nodes|, i requires 0 <= i < |nodes| => Clean(nodes[i], AllowedTags(options), AllowedAttrs(options)))
  }

  /** Every element of the tree has an allowed tag. */
  predicate TagsAllowed(n: Node, allowedTags: seq<string>)
    decreases n
  {
    n.Element? ==> AsciiLower(n.tagName) in allowedTags && forall i :: 0 <= i < |n.children| ==> TagsAllowed(n.children[i], allowedTags)
  }

  /** Every attribute of the tree is allowed, or is one of the three a link is given. */
  predicate AttrsAllowed(n: Node, allowedAttrs: seq<string>)
    decreases n
  {
    n.Element? ==>
      && (forall a :: a in n.attributes ==>
            AttrAllowed(a, allowedAttrs) || (AsciiLower(n.tagName) == "a" && (a.name == "href" || a.name == "target" || a.name == "rel")))
      && forall i :: 0 <= i < |n.children| ==> AttrsAllowed(n.children[i], allowedAttrs)
  }

  /** Every link of the tree goes to '#' or to an http(s) address, in a new tab without a referrer. */
  predicate LinksSafe(n: Node)
    decreases n
  {
    n.Element? ==>
      && (AsciiLower(n.tagName) == "a" ==>
            var href := GetAttribute(n.attributes, "href");
            && href.Some? && (href.value == "#" || Ui.IsWebUrl(href.value))
            && GetAttribute(n.attributes, "target") == Some("_blank")
            && GetAttribute(n.attributes, "rel") == Some("noopener noreferrer"))
      && forall i :: 0 <= i < |n.children| ==> LinksSafe(n.children[i])
  }

  /**
   * Whatever the tree, the cleaned tree has only allowed tags and
   * attributes, and only safe links. The trees range over more than a
   * parser produces (repeated or upper-case attribute names included), so
   * the property holds in particular for every parsed tree.
   */
  lemma {:induction false} CleanSafe(n: Node, allowedTags: seq<string>, allowedAttrs: seq<string>)
    ensures var r := Clean(n, allowedTags, allowedAttrs);
      TagsAllowed(r, allowedTags) && AttrsAllowed(r, allowedAttrs) && LinksSafe(r)
    decreases n
  {
    if n.Element? && AsciiLower(n.tagName) in allowedTags {
      var r := Clean(n, allowedTags, allowedAttrs);
      forall i | 0 <= i < |n.children|
        ensures var c := Clean(n.children[i], allowedTags, allowedAttrs);
          TagsAllowed(c, allowedTags) && AttrsAllowed(c, allowedAttrs) && LinksSafe(c)
      {
        CleanSafe(n.children[i], allowedTags, allowedAttrs);
      }
      assert forall i :: 0 <= i < |r.children| ==> r.children[i] == Clean(n.children[i], allowedTags, allowedAttrs);
      var kept := FilterAttrs(n.attributes, allowedAttrs);
      FilterMembers(n.attributes, allowedAttrs);
      if AsciiLower(n.tagName) == "a" {
        FixLinkNames(kept);
        FixLinkReads(kept, "");
      }
    }
  }

  /** An element whose tag is not allowed is replaced by its text; text is left as it is. */
  lemma CleanReplaces(n: Node, allowedTags: seq<string>, allowedAttrs: seq<string>)
    ensures n.Text? ==> Clean(n, allowedTags, allowedAttrs) == n
    ensures n.Element? && AsciiLower(n.tagName) !in allowedTags ==> Clean(n, allowedTags, allowedAttrs) == Text(TextContent(n))
    ensures n.Element? && AsciiLower(n.tagName) in allowedTags ==>
      var r := Clean(n, allowedTags, allowedAttrs);
      && r.Element? && r.tagName == n.tagName && |r.children| == |n.children|
      && (forall i :: 0 <= i < |n.children| ==> r.children[i] == Clean(n.children[i], allowedTags, allowedAttrs))
      && (AsciiLower(n.tagName) != "a" ==> r.attributes == FilterAttrs(n.attributes, allowedAttrs))
  {
  }

  /** An allowed attribute of an allowed element other than a link keeps its value. */
  lemma CleanKeepsAllowedAttr(n: Node, allowedTags: seq<string>, allowedAttrs: seq<string>, name: string)
    requires n.Element? && AsciiLower(n.tagName) in allowedTags && AsciiLower(name) in allowedAttrs
    requires AsciiLower(n.tagName) == "a" ==> name != "href" && name != "target" && name != "rel"
    ensures GetAttribute(Clean(n, allowedTags, allowedAttrs).attributes, name) == GetAttribute(n.attributes, name)
  {
    var kept := FilterAttrs(n.attributes, allowedAttrs);
    FilterKeepsAllowed(n.attributes, allowedAttrs, name);
    if AsciiLower(n.tagName) == "a" {
      FixLinkReads(kept, name);
    }
  }

  /** The three names a link is given, lower-cased, are themselves. */
  lemma LinkNamesLower()
    ensures AsciiLower("href") == "href" && AsciiLower("target") == "target" && AsciiLower("rel") == "rel"
  {
  }

  /** When the three link attributes are allowed, as they are by default, cleaning a cleaned tree changes nothing. */
  lemma {:induction false} CleanIdempotent(n: Node, allowedTags: seq<string>, allowedAttrs: seq<string>)
    requires "href" in allowedAttrs && "target" in allowedAttrs && "rel" in allowedAttrs
    ensures Clean(Clean(n, allowedTags, allowedAttrs), allowedTags, allowedAttrs) == Clean(n, allowedTags, allowedAttrs)
    decreases n
  {
    if n.Element? && AsciiLower(n.tagName) in allowedTags {
      var r := Clean(n, allowedTags, allowedAttrs);
      CleanedAttrsStable(n.tagName, n.attributes, allowedAttrs);
      forall i | 0 <= i < |n.children|
        ensures Clean(r.children[i], allowedTags, allowedAttrs) == r.children[i]
      {
        CleanIdempotent(n.children[i], allowedTags, allowedAttrs);
      }
      var rr := Clean(r, allowedTags, allowedAttrs);
      assert rr.children == r.children;
    }
  }

  /** Without options the default lists apply; an empty tag list turns every top-level element into its text. */
  lemma SanitizeDefaults(nodes: seq<Node>, attrs: Option<seq<string>>)
    ensures Sanitized(nodes, None) == Sanitized(nodes, Some(SanitizeOptions(None, None)))
    ensures AllowedTags(None) == DefaultAllowedTags && AllowedAttrs(None) == DefaultAllowedAttrs
    ensures forall i :: 0 <= i < |nodes| && nodes[i].Element? ==>
      Sanitized(nodes, Some(SanitizeOptions(Some([]), attrs)))[i] == Text(TextContent(nodes[i]))
  {
  }

  /** Of the defaults, `script` is not an allowed tag, `a` is, and the three link attributes are allowed. */
  lemma DefaultLists()
    ensures "script" !in DefaultAllowedTags && "a" in DefaultAllowedTags
    ensures "href" in DefaultAllowedAttrs && "target" in DefaultAllowedAttrs && "rel" in DefaultAllowedAttrs
  {
  }

  /** By default a `script` element, in whatever case the parser reports it, becomes its text. */
  lemma DefaultScriptBecomesText(body: seq<Node>)
    ensures Clean(Element("SCRIPT", [], body), DefaultAllowedTags, DefaultAllowedAttrs) == Text(TextContent(Element("SCRIPT", [], body)))
  {
    assert AsciiLower("SCRIPT") == "script";
    DefaultLists();
  }

  /** By default a `javascript:` link is sent nowhere. */
  lemma DefaultScriptLinkNeutral(rest: string, cs: seq<Node>)
    ensures var r := Clean(Element("A", [Attr("href", "javascript:" + rest)], cs), DefaultAllowedTags, DefaultAllowedAttrs);
      r.Element? && GetAttribute(r.attributes, "href") == Some("#")
  {
    var attrs := [Attr("href", "javascript:" + rest)];
    assert AsciiLower("A") == "a";
    LinkNamesLower();
    DefaultLists();
    FilterAllAllowed(attrs, DefaultAllowedAttrs);
    FixLinkReads(attrs, "");
    Ui.ScriptLinkNeutral(rest);
  }

  // ---------------------------------------------------------------------
  // The walk itself
  // ---------------------------------------------------------------------

  /** The attribute `forEach` over the snapshot `Array.from(element.attributes)`. */
  method CleanAttributes(attributes: seq<Attr>, allowedAttrs: seq<string>) returns (kept: seq<Attr>)
    ensures kept == FilterAttrs(attributes, allowedAttrs)
  {
    kept := [];
    for i := 0 to |attributes|
      invariant kept == FilterAttrs(attributes[..i], allowedAttrs)
    {
      assert attributes[..i + 1][..i] == attributes[..i];
      if AsciiLower(attributes[i].name) in allowedAttrs {
        kept := kept + [attributes[i]];
      }
    }
    assert attributes[..|attributes|] == attributes;
  }

  /**
   * `cleanElement`: returns the node that takes the element's place. The
   * children are visited over a snapshot; only element children are
   * cleaned, text children stay.
   */
  method CleanElement(element: Node, allowedTags: seq<string>, allowedAttrs: seq<string>) returns (r: Node)
    requires element.Element?
    ensures r == Clean(element, allowedTags, allowedAttrs)
    decreases element
  {
    var tag := AsciiLower(element.tagName);
    if tag !in allowedTags {
      return Text(TextContent(element));
    }
    var attributes := CleanAttributes(element.attributes, allowedAttrs);
    if tag == "a" {
      var href := GetAttribute(attributes, "href");
      if !(href.Some? && href.value != "") || !Ui.IsWebUrl(href.value) {
        attributes := SetAttribute(attributes, "href", "#");
      }
      attributes := SetAttribute(attributes, "target", "_blank");
      attributes := SetAttribute(attributes, "rel", "noopener noreferrer");
    }
    var children := element.children;
    var cleaned := [];
    for i := 0 to |children|
      invariant |cleaned| == i
      invariant forall k :: 0 <= k < i ==> cleaned[k] == Clean(children[k], allowedTags, allowedAttrs)
    {
      var child := children[i];
      if child.Element? {
        child := CleanElement(child, allowedTags, allowedAttrs);
      }
      cleaned := cleaned + [child];
    }
    r := Element(element.tagName, attributes, cleaned);
  }

  /** `sanitize`: every top-level element is cleaned in order; top-level text stays. */
  method Sanitize(nodes: seq<Node>, options: Option<SanitizeOptions>) returns (r: seq<Node>)
    ensures r == Sanitized(nodes, options)
  {
    var allowedTags := AllowedTags(options);
    var allowedAttrs := AllowedAttrs(options);
    r := [];
    for i := 0 to |nodes|
      invariant |r| == i
      invariant forall k :: 0 <= k < i ==> r[k] == Clean(nodes[k], allowedTags, allowedAttrs)
    {
      var node := nodes[i];
      if node.Element? {
        node := CleanElement(node, allowedTags, allowedAttrs);
      }
      r := r + [node];
    }
  }
}
