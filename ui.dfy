/**
 * The page helpers: shortened titles, the relative time shown next to a
 * message, the renderer callbacks that keep model output from injecting
 * markup (code blocks, inline code, links), and the sidebar state.
 */
module Ui {
  import opened Common
  import opened Strings

  const DefaultTruncateLength := 50

  /** `truncateText`: a text over the limit keeps its first `maxLength` characters, followed by "...". */
  function TruncateText(text: string, maxLength: int): (r: string)
    ensures |text| <= maxLength ==> r == text
    ensures 0 <= maxLength < |text| ==> r == text[..maxLength] + "..." && |r| == maxLength + 3
  {
    if |text| <= maxLength then text
    else JsSubstring(text, 0, maxLength) + "..."
  }

  /**
   * `formatTimestamp`, given the milliseconds since the message was
   * written; `None` stands for the locale date shown for anything a day
   * old or older, which is not modelled.
   */
  function FormatTimestamp(diff: int): (r: Option<string>)
    ensures diff < 60000 <==> r == Some("Just now")
    ensures r.None? <==> diff >= 86400000
  {
    if diff < 60000 then Some("Just now")
    else if diff < 3600000 then
      var m := NatToString(diff / 60000) + "m ago";
      assert m[|m| - 1] == 'o';
      Some(m)
    else if diff < 86400000 then
      var h := NatToString(diff / 3600000) + "h ago";
      assert h[|h| - 1] == 'o';
      Some(h)
    else None
  }

  /** The minutes shown are the whole minutes elapsed, 1 to 59; the hours shown, 1 to 23. */
  lemma FormatTimestampBuckets(diff: int)
    ensures 60000 <= diff < 3600000 ==> exists n: nat ::
      1 <= n < 60 && n * 60000 <= diff < (n + 1) * 60000 && FormatTimestamp(diff) == Some(NatToString(n) + "m ago")
    ensures 3600000 <= diff < 86400000 ==> exists n: nat ::
      1 <= n < 24 && n * 3600000 <= diff < (n + 1) * 3600000 && FormatTimestamp(diff) == Some(NatToString(n) + "h ago")
  {
    if 60000 <= diff < 3600000 {
      var n := diff / 60000;
      assert n * 60000 <= diff < (n + 1) * 60000;
      assert 1 <= n < 60;
      assert FormatTimestamp(diff) == Some(NatToString(n) + "m ago");
    } else if 3600000 <= diff < 86400000 {
      var n := diff / 3600000;
      assert n * 3600000 <= diff < (n + 1) * 3600000;
      assert 1 <= n < 24;
      assert FormatTimestamp(diff) == Some(NatToString(n) + "h ago");
    }
  }

  /** Different minute counts are shown differently. */
  lemma FormatTimestampMinutesDistinct(d1: int, d2: int)
    requires 60000 <= d1 < 3600000 && 60000 <= d2 < 3600000
    requires d1 / 60000 != d2 / 60000
    ensures FormatTimestamp(d1) != FormatTimestamp(d2)
  {
    var a, b := NatToString(d1 / 60000), NatToString(d2 / 60000);
    if a + "m ago" == b + "m ago" {
      assert |a| == |b|;
      assert a == (a + "m ago")[..|a|];
      NatToStringInjective(d1 / 60000, d2 / 60000);
    }
  }

  // ---------------------------------------------------------------------
  // Renderer callbacks
  // ---------------------------------------------------------------------

  /** The characters of `[a-zA-Z0-9_+-]`. */
  predicate IsLangChar(c: char) {
    ('a' <= c <= 'z') || ('A' <= c <= 'Z') || ('0' <= c <= '9') || c == '_' || c == '+' || c == '-'
  }

  /** A language name is kept when it is non-empty and matches `^[a-zA-Z0-9_+-]*$`; anything else becomes `''`. */
  function ValidLang(language: Option<string>): (r: string)
    ensures r == "" || (language.Some? && r == language.value)
    ensures forall i :: 0 <= i < |r| ==> IsLangChar(r[i])
    ensures language.Some? && language.value != "" && (forall i :: 0 <= i < |language.value| ==> IsLangChar(language.value[i]))
      ==> r == language.value
  {
    if language.Some? && language.value != "" && forall i :: 0 <= i < |language.value| ==> IsLangChar(language.value[i])
    then language.value
    else ""
  }

  /** `code.replace(/</g, '&lt;').replace(/>/g, '&gt;')`. */
  function EscapeAngles(code: string): (r: string)
    ensures '<' !in r && '>' !in r
  {
    var lt := ReplaceAll(code, '<', "&lt;");
    ReplaceAllRemoves(code, '<', "&lt;");
    ReplaceAllKeeps(lt, '>', "&gt;", '<');
    ReplaceAllRemoves(lt, '>', "&gt;");
    ReplaceAll(lt, '>', "&gt;")
  }

  function EscapeChar(c: char): string {
    if c == '<' then "&lt;" else if c == '>' then "&gt;" else [c]
  }

  /** Each character on its own: the angle brackets become entities, everything else, '&' included, stays. */
  function EscapeEach(s: string): string
    decreases |s|
  {
    if s == [] then "" else EscapeChar(s[0]) + EscapeEach(s[1..])
  }

  /** The two replacements in a row escape character by character. */
  lemma {:induction false} EscapeAnglesEach(s: string)
    ensures EscapeAngles(s) == EscapeEach(s)
    decreases |s|
  {
    if s != [] {
      EscapeAnglesEach(s[1..]);
      var head := if s[0] == '<' then "&lt;" else [s[0]];
      assert ReplaceAll(s, '<', "&lt;") == head + ReplaceAll(s[1..], '<', "&lt;");
      ReplaceAllAppend(head, ReplaceAll(s[1..], '<', "&lt;"), '>', "&gt;");
      assert ReplaceAll(head, '>', "&gt;") == EscapeChar(s[0]) by {
        if s[0] == '<' {
          assert head[1..][1..][1..][1..] == [];
        } else {
          assert head[1..] == [];
        }
      }
    }
  }

  /** Code without angle brackets is shown as it is. */
  lemma EscapeAnglesKeeps(s: string)
    requires '<' !in s && '>' !in s
    ensures EscapeAngles(s) == s
  {
    ReplaceAllAbsent(s, '<', "&lt;");
    ReplaceAllAbsent(s, '>', "&gt;");
  }

  /** `renderer.code`. */
  function RenderCode(code: string, language: Option<string>): string {
    "<pre><code class=\"language-" + ValidLang(language) + "\">" + EscapeAngles(code) + "</code></pre>"
  }

  /** `renderer.codespan`. */
  function RenderCodespan(code: string): string {
    "<code class=\"inline-code\">" + EscapeAngles(code) + "</code>"
  }

  /** The code in a rendered block or span opens no tag and closes none: it holds no angle bracket. */
  lemma RenderedCodeInert(code: string, language: Option<string>)
    ensures var block := RenderCode(code, language);
      var prefix := "<pre><code class=\"language-" + ValidLang(language) + "\">";
      && block[|prefix|..|block| - |"</code></pre>"|] == EscapeAngles(code)
      && '<' !in EscapeAngles(code) && '>' !in EscapeAngles(code)
  {
    var prefix := "<pre><code class=\"language-" + ValidLang(language) + "\">";
    assert RenderCode(code, language) == prefix + EscapeAngles(code) + "</code></pre>";
  }

  /** The code in a rendered span holds no angle bracket either. */
  lemma RenderedCodespanInert(code: string)
    ensures var span := RenderCodespan(code);
      var prefix := "<code class=\"inline-code\">";
      && span[|prefix|..|span| - |"</code>"|] == EscapeAngles(code)
      && '<' !in EscapeAngles(code) && '>' !in EscapeAngles(code)
  {
    var prefix := "<code class=\"inline-code\">";
    assert RenderCodespan(code) == prefix + EscapeAngles(code) + "</code>";
  }

  /** `href.match(/^https?:\/\//)`: case-sensitive. */
  predicate IsWebUrl(href: string) {
    StartsWith(href, "http://") || StartsWith(href, "https://")
  }

  /** The link target: the given one for an http or https address, '#' for anything else, a missing one included. */
  function SafeHref(href: Option<string>): (r: string)
    ensures r == "#" || (href.Some? && r == href.value && IsWebUrl(r))
    ensures href.Some? && IsWebUrl(href.value) ==> r == href.value
  {
    if href.Some? && href.value != "" && IsWebUrl(href.value) then href.value else "#"
  }

  /** The title attribute, with every '"' written as `&quot;`, or nothing for a missing or empty title. */
  function TitleAttr(title: Option<string>): (r: string)
  {
    if title.Some? && title.value != "" then " title=\"" + ReplaceAll(title.value, '"', "&quot;") + "\"" else ""
  }

  /** `renderer.link`: always opens in a new tab without a referrer. */
  function RenderLink(href: Option<string>, title: Option<string>, text: string): string {
    "<a href=\"" + SafeHref(href) + "\" target=\"_blank\" rel=\"noopener noreferrer\"" + TitleAttr(title) + ">" + text + "</a>"
  }

  /** A title's text cannot end its attribute: the only quotes left are the two around it. */
  lemma TitleAttrQuoted(title: string)
    requires title != ""
    ensures var r := TitleAttr(Some(title));
      var inner := ReplaceAll(title, '"', "&quot;");
      r == " title=\"" + inner + "\"" && '"' !in inner
  {
    ReplaceAllRemoves(title, '"', "&quot;");
  }

  /** The opening tag of a rendered link, up to its optional title. */
  function LinkOpening(href: Option<string>): string {
    "<a href=\"" + SafeHref(href) + "\" target=\"_blank\" rel=\"noopener noreferrer\""
  }

  /**
   * A rendered link opens with '#' or with the given http(s) address, and
   * always carries `target="_blank"` and `rel="noopener noreferrer"`.
   */
  lemma RenderLinkOpening(href: Option<string>, title: Option<string>, text: string)
    ensures var h := SafeHref(href);
      && (h == "#" || (href == Some(h) && IsWebUrl(h)))
      && LinkOpening(href) == "<a href=\"" + h + "\" target=\"_blank\" rel=\"noopener noreferrer\""
      && var r := RenderLink(href, title, text);
      && |LinkOpening(href)| <= |r| && r[..|LinkOpening(href)|] == LinkOpening(href)
  {
    var rest := TitleAttr(title) + ">" + text + "</a>";
    assert RenderLink(href, title, text) == LinkOpening(href) + rest;
    assert (LinkOpening(href) + rest)[..|LinkOpening(href)|] == LinkOpening(href);
  }

  /** After the opening, a rendered link has a title attribute only for a non-empty title, with no quote inside it. */
  lemma RenderLinkTitle(href: Option<string>, title: Option<string>, text: string)
    ensures !(title.Some? && title.value != "") ==> RenderLink(href, title, text) == LinkOpening(href) + ">" + text + "</a>"
    ensures title.Some? && title.value != "" ==>
      var inner := ReplaceAll(title.value, '"', "&quot;");
      && '"' !in inner
      && RenderLink(href, title, text) == LinkOpening(href) + " title=\"" + inner + "\"" + ">" + text + "</a>"
  {
    if title.Some? && title.value != "" {
      TitleAttrQuoted(title.value);
    }
  }

  /** A `javascript:` link, or one with an upper-case scheme, is sent nowhere. */
  lemma ScriptLinkNeutral(rest: string)
    ensures SafeHref(Some("javascript:" + rest)) == "#"
    ensures SafeHref(Some("HTTP://" + rest)) == "#"
  {
    assert ("javascript:" + rest)[0] == 'j';
    assert ("HTTP://" + rest)[0] == 'H';
  }

  // ---------------------------------------------------------------------
  // Page state
  // ---------------------------------------------------------------------

  const NarrowWidth := 768

  class UIManager {
    var activeSession: Option<string>
    var sidebarVisible: bool

    constructor ()
      ensures activeSession.None? && sidebarVisible
    {
      activeSession := None;
      sidebarVisible := true;
    }

    /** `toggleSidebar`: flips the sidebar, so two toggles restore it. */
    method ToggleSidebar()
      modifies this
      ensures sidebarVisible == !old(sidebarVisible) && activeSession == old(activeSession)
    {
      sidebarVisible := !sidebarVisible;
    }

    /** `handleResize`: a narrow window hides the sidebar; a wide one leaves it as it was. */
    method HandleResize(innerWidth: int)
      modifies this
      ensures sidebarVisible == (innerWidth > NarrowWidth && old(sidebarVisible))
      ensures activeSession == old(activeSession)
    {
      if innerWidth <= NarrowWidth {
        sidebarVisible := false;
      }
    }

    /** `setActiveSession`. */
    method SetActiveSession(sessionId: string)
      modifies this
      ensures activeSession == Some(sessionId) && sidebarVisible == old(sidebarVisible)
    {
      activeSession := Some(sessionId);
    }
  }
}
