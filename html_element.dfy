/**
 * HtmlElement (includes/Core/HtmlElement.php): an element with a tag, an
 * ordered attribute map and three content slots (inner html, inner text,
 * children), rendered to markup on demand.
 */
module Html {
  import opened Wrappers
  import opened Strings
  import opened Php

  const InnerContentTypeError := "TypeError: HtmlElement::set_inner_text()/set_inner_html() argument must be of type string"

  /** AUTO_CLOSEABLE_TABS: tags closed with "/>" when they have no content. */
  const AutoCloseable: seq<string> := ["input", "img"]

  /** TAG_PROPERTIES: attributes rendered as a bare name. */
  const TagProperties: seq<string> := [
    "async", "autofocus", "autoplay", "checked", "contenteditable", "default", "defer", "disabled", "draggable", "hidden",
    "ismap", "loop", "multiple", "muted", "novalidate", "preload", "readonly", "required", "reversed", "selected", "spellcheck", "translate"]

  /** An element's state, as its render reads it; children are the states of the appended elements. */
  datatype Element = Element(tag: string, attributes: Entries, innerHtml: Option<string>, innerText: Option<string>, children: seq<Element>)

  /** `!empty($s)` for a string slot that may be null. */
  predicate Filled(slot: Option<string>)
  {
    slot.Some? && !Empty(Str(slot.value))
  }

  /** has_inner_content (includes/Core/HtmlElement.php:138-140). */
  predicate HasInnerContent(e: Element)
  {
    Filled(e.innerHtml) || Filled(e.innerText) || e.children != []
  }

  /** Whether render drops an attribute: empty values go, except the integer 0 and the empty string. */
  predicate Skipped(v: Value)
  {
    Empty(v) && v != Int(0) && v != Str("")
  }

  /** The markup of one kept attribute: a bare property name, or `key="escaped value"`. */
  function AttributePart(k: Key, v: Value, h: Host): string
  {
    if k in TagProperties then k else k + "=\"" + h.escAttr(v) + "\""
  }

  /** The attribute loop of render (includes/Core/HtmlElement.php:171-187), over the attributes from `from` on. */
  function AttributeParts(attrs: Entries, from: nat, h: Host): (parts: seq<string>)
    requires from <= |attrs|
    ensures |parts| <= |attrs| - from
    decreases |attrs| - from
  {
    if from == |attrs| then []
    else if Skipped(attrs[from].1) then AttributeParts(attrs, from + 1, h)
    else [AttributePart(attrs[from].0, attrs[from].1, h)] + AttributeParts(attrs, from + 1, h)
  }

  /** The opening tag's parts: "<tag" and the kept attributes. */
  function OpeningParts(e: Element, h: Host): (parts: seq<string>)
    ensures |parts| >= 1 && parts[0] == "<" + e.tag
  {
    ["<" + e.tag] + AttributeParts(e.attributes, 0, h)
  }

  /** The last part with `suffix` appended, as render's `.=` on the last part does. */
  function CloseLast(parts: seq<string>, suffix: string): (r: seq<string>)
    requires |parts| >= 1
    ensures |r| == |parts| && r[..|r| - 1] == parts[..|parts| - 1]
  {
    parts[..|parts| - 1] + [parts[|parts| - 1] + suffix]
  }

  /** What render appends to the last opening part when the tag is not self-closed. */
  function Closing(e: Element, h: Host): string
    decreases e, 2
  {
    if HasInnerContent(e) then ">" + InnerContent(e, h) + "</" + e.tag + ">"
    else ">" + "</" + e.tag + ">"
  }

  /** render (includes/Core/HtmlElement.php:165-228) of an element state, hooks left as they are. */
  function Markup(e: Element, h: Host): string
    decreases e, 3
  {
    var parts := OpeningParts(e, h);
    if !HasInnerContent(e) && e.tag in AutoCloseable then Join(parts + ["/>"], ' ')
    else Join(CloseLast(parts, Closing(e, h)), ' ')
  }

  /** get_inner_content (includes/Core/HtmlElement.php:72-91): html, else escaped text, else the children's markup. */
  function InnerContent(e: Element, h: Host): string
    decreases e, 1
  {
    if Filled(e.innerHtml) then e.innerHtml.value
    else if Filled(e.innerText) then h.htmlEntities(e.innerText.value)
    else if e.children != [] then Join(ChildMarkups(e, 0, h), '\n')
    else ""
  }

  /** The markup of the children from `from` on. */
  function ChildMarkups(e: Element, from: nat, h: Host): (r: seq<string>)
    requires from <= |e.children|
    ensures |r| == |e.children| - from
    decreases e, 0, |e.children| - from
  {
    if from == |e.children| then []
    else [Markup(e.children[from], h)] + ChildMarkups(e, from + 1, h)
  }

  // ---------------------------------------------------------------------
  // Properties of render
  // ---------------------------------------------------------------------

  /** An attribute is left out exactly when it is empty and neither 0 nor ""; the others appear in order. */
  lemma {:induction false} AttributePartsKept(attrs: Entries, from: nat, h: Host)
    requires from <= |attrs|
    ensures AttributeParts(attrs, from, h) ==
      seq(|Kept(attrs, from)|, i requires 0 <= i < |Kept(attrs, from)| => AttributePart(Kept(attrs, from)[i].0, Kept(attrs, from)[i].1, h))
    decreases |attrs| - from
  {
    if from < |attrs| {
      AttributePartsKept(attrs, from + 1, h);
    }
  }

  /** The attributes from `from` on that render keeps. */
  function Kept(attrs: Entries, from: nat): (r: Entries)
    requires from <= |attrs|
    ensures forall i :: 0 <= i < |r| ==> !Skipped(r[i].1)
    ensures forall i :: from <= i < |attrs| && !Skipped(attrs[i].1) ==> attrs[i] in r
    decreases |attrs| - from
  {
    if from == |attrs| then []
    else if Skipped(attrs[from].1) then Kept(attrs, from + 1)
    else [attrs[from]] + Kept(attrs, from + 1)
  }

  /** The zero and the empty string are the only empty values rendered. */
  lemma SkippedValues()
    ensures !Skipped(Int(0)) && !Skipped(Str(""))
    ensures Skipped(Null) && Skipped(Bool(false)) && Skipped(Str("0")) && Skipped(Arr([])) && Skipped(Float(0.0))
  {
  }

  /** Without content, "input" and "img" end in " />", every other tag in "></tag>". */
  lemma SelfClosing(e: Element, h: Host)
    requires !HasInnerContent(e)
    ensures e.tag in AutoCloseable ==> Markup(e, h) == Join(OpeningParts(e, h), ' ') + " />"
    ensures e.tag !in AutoCloseable ==> Markup(e, h) == Join(OpeningParts(e, h), ' ') + "></" + e.tag + ">"
  {
    var parts := OpeningParts(e, h);
    if e.tag in AutoCloseable {
      JoinAppend(parts, "/>", ' ');
    } else {
      JoinExtendLast(parts, Closing(e, h), ' ');
      assert Closing(e, h) == "></" + e.tag + ">";
    }
  }

  /** With content, the opening tag is closed, followed by the content and the closing tag. */
  lemma WithContent(e: Element, h: Host)
    requires HasInnerContent(e)
    ensures Markup(e, h) == Join(OpeningParts(e, h), ' ') + ">" + InnerContent(e, h) + "</" + e.tag + ">"
  {
    JoinExtendLast(OpeningParts(e, h), Closing(e, h), ' ');
  }

  /** Inner html wins over inner text, which wins over the children. */
  lemma ContentPriority(e: Element, h: Host)
    ensures Filled(e.innerHtml) ==> InnerContent(e, h) == e.innerHtml.value
    ensures !Filled(e.innerHtml) && Filled(e.innerText) ==> InnerContent(e, h) == h.htmlEntities(e.innerText.value)
    ensures !Filled(e.innerHtml) && !Filled(e.innerText) && e.children != [] ==>
      InnerContent(e, h) == Join(ChildMarkups(e, 0, h), '\n')
    ensures !HasInnerContent(e) ==> InnerContent(e, h) == ""
  {
  }

  /** After set_inner_html the content is that html, except that an empty-looking html such as "0" renders nothing. */
  lemma HtmlReplacesContent(e: Element, html: string, h: Host)
    ensures InnerContent(e.(innerHtml := Some(html), innerText := None, children := []), h) ==
      if Empty(Str(html)) then "" else html
  {
  }

  /** After set_inner_text the content is the escaped text, with the same exception. */
  lemma TextReplacesContent(e: Element, text: string, h: Host)
    ensures InnerContent(e.(innerText := Some(text), innerHtml := None, children := []), h) ==
      if Empty(Str(text)) then "" else h.htmlEntities(text)
  {
  }

  /** The text "0" counts as no content, so the element renders as if empty. */
  lemma ZeroTextIsNoContent(e: Element)
    requires e.innerHtml.None? && e.children == [] && e.innerText == Some("0")
    ensures !HasInnerContent(e)
  {
  }

  /** The states of a list of elements. */
  function States(els: seq<HtmlElement>): (r: seq<Element>)
    reads els
    ensures |r| == |els|
    ensures forall i :: 0 <= i < |els| ==> r[i] == els[i].State()
  {
    if els == [] then [] else [els[0].State()] + States(els[1..])
  }

  class HtmlElement {
    var tag: string
    var attributes: Entries
    var innerHtml: Option<string>
    var innerText: Option<string>
    var children: seq<Element>
    /** Set by every mutator and never cleared, so every render recomputes. */
    var dirty: bool
    /** The last markup rendered, null before the first render. */
    var result: Option<string>

    /** The element's state as render reads it. */
    function State(): Element
      reads this`tag, this`attributes, this`innerHtml, this`innerText, this`children
    {
      Element(tag, attributes, innerHtml, innerText, children)
    }

    /** `dirty` holds from construction on. */
    predicate Valid()
      reads this
    {
      dirty
    }

    /** The plain part of the constructor: tag and attributes, no content. */
    constructor Plain(tag: string, attributes: Entries)
      ensures Valid()
      ensures State() == Element(tag, attributes, None, None, []) && result == None
    {
      this.tag := tag;
      this.attributes := attributes;
      innerHtml := None;
      innerText := None;
      children := [];
      dirty := true;
      result := None;
    }

    /**
     * The constructor (includes/Core/HtmlElement.php:38-65): `inner_text`,
     * `inner_html` and the `children` elements (given apart, as `kids`) are
     * routed to the content slots and removed from the attributes. A value
     * that is no string cannot be set as text or html.
     */
    static method Create(tag: string, options: Entries, kids: Option<seq<HtmlElement>>, h: Host) returns (r: Result<HtmlElement, string>)
      requires kids.Some? <==> IsSetAt(options, "children")
      ensures r.Err? <==> TextSlot(options, h).None? || HtmlSlot(options, h).None?
      ensures r.Ok? ==> fresh(r.value) && r.value.Valid()
      ensures r.Ok? ==> r.value.State() == Element(tag, Routed(options, kids.Some?), HtmlSlot(options, h).value,
          if HtmlSlot(options, h).value.None? then TextSlot(options, h).value else None,
          if kids.Some? then old(States(kids.value)) else [])
    {
      var el := new HtmlElement.Plain(tag, options);
      var ok := el.RouteContent(options, h);
      if !ok {
        return Err(InnerContentTypeError);
      }
      if kids.Some? {
        assert el !in kids.value;
        assert States(kids.value) == old(States(kids.value));
        el.AdoptChildren(kids.value);
      }
      return Ok(el);
    }

    /** The inner_text and inner_html steps of the constructor (includes/Core/HtmlElement.php:44-54). */
    method RouteContent(options: Entries, h: Host) returns (ok: bool)
      requires Valid() && State() == Element(tag, options, None, None, [])
      modifies this
      ensures ok <==> TextSlot(options, h).Some? && HtmlSlot(options, h).Some?
      ensures ok ==> Valid() && State() == Element(old(tag), Routed(options, false), HtmlSlot(options, h).value,
          if HtmlSlot(options, h).value.None? then TextSlot(options, h).value else None, [])
    {
      if IsSetAt(options, "inner_text") {
        var text := StringParam(At(options, "inner_text"), false, h);
        if text.None? {
          return false;
        }
        SetInnerText(text.value);
        RemoveAttribute("inner_text");
      }
      if IsSetAt(options, "inner_html") {
        var html := StringParam(At(options, "inner_html"), false, h);
        if html.None? {
          return false;
        }
        SetInnerHtml(html.value);
        RemoveAttribute("inner_html");
      }
      return true;
    }

    /** `unset($this->attributes[$key])`. */
    method RemoveAttribute(key: Key)
      modifies this`attributes
      ensures attributes == Remove(old(attributes), key)
    {
      attributes := Remove(attributes, key);
    }

    /** set_inner_html (includes/Core/HtmlElement.php:99-105): the other two slots are cleared. */
    method SetInnerHtml(html: string)
      modifies this
      ensures State() == old(State()).(innerHtml := Some(html), innerText := None, children := [])
      ensures Valid() && result == old(result)
    {
      innerHtml := Some(html);
      innerText := None;
      children := [];
      dirty := true;
    }

    /** set_inner_text (includes/Core/HtmlElement.php:113-119): the other two slots are cleared. */
    method SetInnerText(text: string)
      modifies this
      ensures State() == old(State()).(innerText := Some(text), innerHtml := None, children := [])
      ensures Valid() && result == old(result)
    {
      innerText := Some(text);
      innerHtml := None;
      children := [];
      dirty := true;
    }

    /** append_child (includes/Core/HtmlElement.php:127-131): the child goes last, earlier ones stay. */
    method AppendChild(el: HtmlElement)
      modifies this
      ensures State() == old(State()).(children := old(children) + [old(el.State())])
      ensures Valid() && result == old(result)
    {
      children := children + [el.State()];
      dirty := true;
    }

    /** The children step of the constructor (includes/Core/HtmlElement.php:57-64). */
    method AdoptChildren(kids: seq<HtmlElement>)
      requires this !in kids && Valid()
      modifies this
      ensures State() == old(State()).(children := old(children) + old(States(kids)), attributes := Remove(old(attributes), "children"))
      ensures Valid() && result == old(result)
    {
      AppendAll(kids);
      RemoveAttribute("children");
    }

    /** The children loop of the constructor (includes/Core/HtmlElement.php:58-61). */
    method AppendAll(kids: seq<HtmlElement>)
      requires this !in kids
      modifies this
      ensures State() == old(State()).(children := old(children) + old(States(kids)))
      ensures dirty == (old(dirty) || kids != []) && result == old(result)
    {
      var i := 0;
      while i < |kids|
        invariant 0 <= i <= |kids|
        invariant State() == old(State()).(children := old(children) + old(States(kids[..i])))
        invariant dirty == (old(dirty) || i > 0) && result == old(result)
      {
        assert kids[..i + 1] == kids[..i] + [kids[i]];
        AppendChild(kids[i]);
        i := i + 1;
      }
      assert kids[..i] == kids;
    }

    /** has_inner_content (includes/Core/HtmlElement.php:138-140). */
    function HasContent(): bool
      reads this`tag, this`attributes, this`innerHtml, this`innerText, this`children
    {
      HasInnerContent(State())
    }

    /** set_attribute (includes/Core/HtmlElement.php:149-152): a key is overwritten in place or added last. */
    method SetAttribute(key: Key, value: Value)
      modifies this
      ensures State() == old(State()).(attributes := Put(old(attributes), key, value))
      ensures Valid() && result == old(result)
    {
      attributes := Put(attributes, key, value);
      dirty := true;
    }

    /** set_property (includes/Core/HtmlElement.php:154-157), whose value defaults to true. */
    method SetProperty(key: Key, value: Value := Bool(true))
      modifies this
      ensures State() == old(State()).(attributes := Put(old(attributes), key, value))
      ensures Valid() && result == old(result)
    {
      attributes := Put(attributes, key, value);
      dirty := true;
    }

    /** The attribute loop of render (includes/Core/HtmlElement.php:168-187): the tag, then each attribute kept. */
    method Opening(h: Host) returns (parts: seq<string>)
      ensures parts == OpeningParts(State(), h)
    {
      parts := ["<" + tag];
      var i := 0;
      while i < |attributes|
        invariant 0 <= i <= |attributes|
        invariant parts + AttributeParts(attributes, i, h) == OpeningParts(State(), h)
      {
        var (key, value) := attributes[i];
        if !Skipped(value) {
          parts := parts + [AttributePart(key, value, h)];
        }
        i := i + 1;
      }
    }

    /**
     * render (includes/Core/HtmlElement.php:165-228): since the element is
     * always dirty, the markup is built anew, cached and returned.
     */
    method Render(h: Host) returns (markup: string)
      requires Valid()
      modifies this`result
      ensures markup == Markup(State(), h) && result == Some(markup)
    {
      var parts := Opening(h);
      if !HasContent() {
        if tag in AutoCloseable {
          parts := parts + ["/>"];
        } else {
          parts := CloseLast(parts, ">" + "</" + tag + ">");
        }
      } else {
        parts := CloseLast(parts, ">" + InnerContent(State(), h) + "</" + tag + ">");
      }
      markup := Join(parts, ' ');
      result := Some(markup);
    }
  }

  /**
   * The inner text the constructor sets: none when the option is not set,
   * and a failure (None) when its value cannot be passed as a string.
   */
  function TextSlot(options: Entries, h: Host): Option<Option<string>>
  {
    if !IsSetAt(options, "inner_text") then Some(None)
    else var t := StringParam(At(options, "inner_text"), false, h);
      if t.None? then None else Some(Some(t.value))
  }

  /** The inner html the constructor sets, in the same form as TextSlot. */
  function HtmlSlot(options: Entries, h: Host): Option<Option<string>>
  {
    if !IsSetAt(options, "inner_html") then Some(None)
    else var t := StringParam(At(options, "inner_html"), false, h);
      if t.None? then None else Some(Some(t.value))
  }

  /** The attributes the constructor keeps: the options without the keys routed to content. */
  function Routed(options: Entries, hasKids: bool): Entries
  {
    var a := if IsSetAt(options, "inner_text") then Remove(options, "inner_text") else options;
    var b := if IsSetAt(options, "inner_html") then Remove(a, "inner_html") else a;
    if hasKids then Remove(b, "children") else b
  }

  /** The constructor keeps none of the content keys it routed as an attribute. */
  lemma RoutedDropsContentKeys(options: Entries, hasKids: bool)
    ensures IsSetAt(options, "inner_text") ==> !HasKey(Routed(options, hasKids), "inner_text")
    ensures IsSetAt(options, "inner_html") ==> !HasKey(Routed(options, hasKids), "inner_html")
    ensures hasKids ==> !HasKey(Routed(options, hasKids), "children")
  {
  }
}
