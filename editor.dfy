/**
 * The editor component's own logic (frontend/src/components/Editor.tsx): the
 * link-safety mode and its settings in `localStorage`, the URL test applied to
 * pasted text, and the handlers that apply content arriving from the server.
 *
 * The component's state hooks become the fields of class `EditorState`; each
 * handler is one atomic step. The rich-text document is an opaque HTML string,
 * `window.open` is recorded in `openedUrls`, and outgoing `text_change` messages are
 * recorded in `sent`.
 */
module Editor {
  import opened Wrappers

  const StorageKeyVisited: string := "mastertexto_visited_links"
  const StorageKeySafety: string := "mastertexto_safety_mode"

  /** A `localStorage` value. The visited list is stored as the JSON text of an array of
      URLs; here that text is represented by the list it encodes. */
  datatype Stored = Text(text: string) | LinkList(urls: seq<string>)

  // ---------------------------------------------------------------------------
  // Visited links: a JavaScript `Set` keeps insertion order and no duplicates

  predicate NoDuplicates(l: seq<string>)
  {
    forall i, j :: 0 <= i < j < |l| ==> l[i] != l[j]
  }

  /** `new Set(array)`: the first occurrence of each element, in order. */
  function Dedup(l: seq<string>): (r: seq<string>)
    ensures NoDuplicates(r)
    ensures forall x :: x in r <==> x in l
    decreases |l|
  {
    if l == [] then []
    else
      var d := Dedup(l[..|l| - 1]);
      if l[|l| - 1] in d then d else d + [l[|l| - 1]]
  }

  /** A list without duplicates comes back from `new Set` unchanged. */
  lemma {:induction false} DedupOfDistinct(l: seq<string>)
    requires NoDuplicates(l)
    ensures Dedup(l) == l
    decreases |l|
  {
    if l != [] {
      var init := l[..|l| - 1];
      assert NoDuplicates(init);
      DedupOfDistinct(init);
      assert l[|l| - 1] !in init;
      assert init + [l[|l| - 1]] == l;
    }
  }

  // ---------------------------------------------------------------------------
  // Settings in localStorage

  /** `String(b)` for a boolean. */
  function BoolText(b: bool): string
  {
    if b then "true" else "false"
  }

  /** The safety mode the mount effect reads: the stored text is exactly "true". */
  predicate SavedSafety(storage: map<string, Stored>)
    ensures StorageKeySafety !in storage ==> !SavedSafety(storage)
    ensures SavedSafety(storage) ==> storage[StorageKeySafety] == Text(BoolText(true))
  {
    StorageKeySafety in storage && storage[StorageKeySafety] == Text("true")
  }

  /** The visited list the mount effect ends with, starting from `current`: a stored list is
      loaded through `new Set`; a missing entry is skipped; text that is not a stored list is
      taken as the parse failure the effect logs, and `current` is kept. */
  function SavedLinks(storage: map<string, Stored>, current: seq<string>): (r: seq<string>)
    ensures NoDuplicates(current) ==> NoDuplicates(r)
    ensures StorageKeyVisited !in storage ==> r == current
    ensures StorageKeyVisited in storage && storage[StorageKeyVisited].LinkList? ==>
              forall x :: x in r <==> x in storage[StorageKeyVisited].urls
  {
    if StorageKeyVisited in storage && storage[StorageKeyVisited].LinkList? then
      Dedup(storage[StorageKeyVisited].urls)
    else current
  }

  /** Storing a mode and reading the settings back recovers that mode. */
  lemma SafetyRoundTrip(storage: map<string, Stored>, on: bool)
    ensures SavedSafety(storage[StorageKeySafety := Text(BoolText(on))]) == on
  {
  }

  /** Storing a visited list and reading the settings back recovers that list. */
  lemma VisitedRoundTrip(storage: map<string, Stored>, links: seq<string>, current: seq<string>)
    requires NoDuplicates(links)
    ensures SavedLinks(storage[StorageKeyVisited := LinkList(links)], current) == links
  {
    DedupOfDistinct(links);
  }

  // ---------------------------------------------------------------------------
  // Trimming and the paste URL test

  /** The characters JavaScript's `trim` removes and the regular expression class `\s`
      matches: white space and line terminators. */
  predicate IsWhitespace(c: char)
  {
    || c == '\t' || c == '\n' || c == '\U{000B}' || c == '\U{000C}' || c == '\r' || c == ' '
    || c == '\U{00A0}' || c == '\U{1680}' || ('\U{2000}' <= c <= '\U{200A}')
    || c == '\U{2028}' || c == '\U{2029}' || c == '\U{202F}' || c == '\U{205F}'
    || c == '\U{3000}' || c == '\U{FEFF}'
  }

  function TrimStart(s: string): string
    decreases |s|
  {
    if s != [] && IsWhitespace(s[0]) then TrimStart(s[1..]) else s
  }

  function TrimEnd(s: string): string
    decreases |s|
  {
    if s != [] && IsWhitespace(s[|s| - 1]) then TrimEnd(s[..|s| - 1]) else s
  }

  /** `String.prototype.trim`. */
  function Trim(s: string): (r: string)
    ensures |r| <= |s|
    ensures r == [] || (!IsWhitespace(r[0]) && !IsWhitespace(r[|r| - 1]))
  {
    TrimStartCut(s);
    TrimEndCut(TrimStart(s));
    TrimEnd(TrimStart(s))
  }

  lemma {:induction false} TrimStartCut(s: string)
    ensures var t := TrimStart(s);
            && |t| <= |s| && t == s[|s| - |t|..]
            && (forall i :: 0 <= i < |s| - |t| ==> IsWhitespace(s[i]))
            && (t == [] || !IsWhitespace(t[0]))
    decreases |s|
  {
    if s != [] && IsWhitespace(s[0]) {
      TrimStartCut(s[1..]);
    }
  }

  lemma {:induction false} TrimEndCut(s: string)
    ensures var t := TrimEnd(s);
            && |t| <= |s| && t == s[..|t|]
            && (forall i :: |t| <= i < |s| ==> IsWhitespace(s[i]))
            && (t == [] || !IsWhitespace(t[|t| - 1]))
    decreases |s|
  {
    if s != [] && IsWhitespace(s[|s| - 1]) {
      TrimEndCut(s[..|s| - 1]);
      assert s[..|s| - 1][..|TrimEnd(s)|] == s[..|TrimEnd(s)|];
    }
  }

  /** Trimming keeps a contiguous part of the text, removes only white space around it,
      and leaves no white space at either end. */
  lemma TrimKeepsInfix(s: string)
    ensures var t := Trim(s);
            var i := |s| - |TrimStart(s)|;
            && 0 <= i && i + |t| <= |s| && t == s[i..i + |t|]
            && (forall k :: 0 <= k < i ==> IsWhitespace(s[k]))
            && (forall k :: i + |t| <= k < |s| ==> IsWhitespace(s[k]))
            && (t == [] || (!IsWhitespace(t[0]) && !IsWhitespace(t[|t| - 1])))
  {
    var u := TrimStart(s);
    TrimStartCut(s);
    TrimEndCut(u);
    var t := Trim(s);
    var i := |s| - |u|;
    assert t == u[..|t|];
    assert u[..|t|] == s[i..i + |t|];
    forall k | i + |t| <= k < |s| ensures IsWhitespace(s[k]) {
      assert s[k] == u[k - i];
    }
  }

  /** `[^\s]*` over the whole string. */
  predicate NoWhitespace(s: string)
    ensures NoWhitespace(s) && s != [] ==> !IsWhitespace(s[|s| - 1])
    decreases |s|
  {
    s == [] || (!IsWhitespace(s[0]) && NoWhitespace(s[1..]))
  }

  lemma {:induction false} NoWhitespaceIff(s: string)
    ensures NoWhitespace(s) <==> forall i :: 0 <= i < |s| ==> !IsWhitespace(s[i])
    decreases |s|
  {
    if s != [] {
      NoWhitespaceIff(s[1..]);
      assert forall i :: 1 <= i < |s| ==> s[i] == s[1..][i - 1];
    }
  }

  /** `/^(https?:\/\/[^\s]+)$/.test(t)`: "http", an optional "s", "://", then one or more
      characters other than white space up to the end. */
  predicate MatchesUrlPattern(t: string)
    ensures MatchesUrlPattern(t) ==> |t| > 7 && !IsWhitespace(t[0]) && !IsWhitespace(t[|t| - 1])
  {
    && |t| >= 4 && t[..4] == "http"
    && var rest := if |t| > 4 && t[4] == 's' then t[5..] else t[4..];
       |rest| > 3 && rest[..3] == "://" && NoWhitespace(rest[3..])
  }

  /** The paste handler's guard: there is clipboard text, it is not empty, and its trimmed
      form matches the URL pattern. */
  predicate IsLinkPaste(text: Option<string>)
    ensures IsLinkPaste(text) ==> text.Some? && |Trim(text.value)| > 7
  {
    text.Some? && text.value != "" && MatchesUrlPattern(Trim(text.value))
  }

  /** The URL pattern read as a property of the whole string. */
  lemma UrlPatternIff(t: string)
    ensures MatchesUrlPattern(t) <==>
      || (|t| > 7 && t[..7] == "http://" && forall i :: 7 <= i < |t| ==> !IsWhitespace(t[i]))
      || (|t| > 8 && t[..8] == "https://" && forall i :: 8 <= i < |t| ==> !IsWhitespace(t[i]))
  {
    if |t| > 7 {
      NoWhitespaceIff(t[7..]);
      assert forall i :: 7 <= i < |t| ==> t[i] == t[7..][i - 7];
    }
    if |t| > 8 {
      NoWhitespaceIff(t[8..]);
      assert forall i :: 8 <= i < |t| ==> t[i] == t[8..][i - 8];
    }
    if |t| > 4 && t[4] == 's' {
      if |t| > 8 {
        assert t[5..][3..] == t[8..];
        assert t[5..][..3] == t[5..8];
        assert t[..8] == t[..4] + ['s'] + t[5..8];
      }
    } else if |t| > 4 {
      if |t| > 7 {
        assert t[4..][3..] == t[7..];
        assert t[4..][..3] == t[4..7];
        assert t[..7] == t[..4] + t[4..7];
      }
    }
  }

  /** Pasted text is taken as a link exactly when its trimmed form is "http://" or "https://"
      followed by one or more characters, none of them white space. */
  lemma IsLinkPasteIff(text: string)
    ensures IsLinkPaste(Some(text)) <==>
      var t := Trim(text);
      || (|t| > 7 && t[..7] == "http://" && forall i :: 7 <= i < |t| ==> !IsWhitespace(t[i]))
      || (|t| > 8 && t[..8] == "https://" && forall i :: 8 <= i < |t| ==> !IsWhitespace(t[i]))
  {
    UrlPatternIff(Trim(text));
    if text == "" {
      assert Trim(text) == "";
    }
  }

  /** No clipboard text, or text that trims to nothing, is never a link. */
  lemma BlankPasteIsNotLink(text: Option<string>)
    requires text.None? || Trim(text.value) == ""
    ensures !IsLinkPaste(text)
  {
  }

  // ---------------------------------------------------------------------------
  // The component's state

  class EditorState {
    const roomId: string
    var safetyMode: bool
    var visitedLinks: seq<string>
    var modalLink: Option<string>
    var openedUrls: seq<string>
    var localStorage: map<string, Stored>
    var document: string
    var lastUpdated: int
    var sent: seq<string>

    ghost predicate Valid()
      reads this
    {
      NoDuplicates(visitedLinks)
    }

    /** The visited links as a set. */
    function Visited(): set<string>
      reads this
    {
      set x | x in visitedLinks
    }

    /** The state hooks' initial values, on a page whose `localStorage` holds `stored`.
        `initialHtml` is what the new, empty editor serialises to; it need not be "". */
    constructor (roomId: string, stored: map<string, Stored>, initialHtml: string, now: int)
      ensures Valid()
      ensures this.roomId == roomId && !safetyMode && visitedLinks == [] && modalLink == None
      ensures openedUrls == [] && localStorage == stored && document == initialHtml
      ensures lastUpdated == now && sent == []
    {
      this.roomId := roomId;
      safetyMode, visitedLinks, modalLink, openedUrls := false, [], None, [];
      localStorage, document, lastUpdated, sent := stored, initialHtml, now, [];
    }

    /** The mount effect: read the safety mode, then the visited list. */
    method LoadSettings()
      requires Valid()
      modifies this
      ensures Valid()
      ensures safetyMode == SavedSafety(localStorage)
      ensures visitedLinks == SavedLinks(localStorage, old(visitedLinks))
      ensures localStorage == old(localStorage) && modalLink == old(modalLink) && openedUrls == old(openedUrls)
      ensures document == old(document) && lastUpdated == old(lastUpdated) && sent == old(sent)
    {
      safetyMode := SavedSafety(localStorage);
      if StorageKeyVisited in localStorage {
        match localStorage[StorageKeyVisited]
        case LinkList(urls) =>
          visitedLinks := Dedup(urls);
        case Text(_) =>
      }
    }

    method ToggleSafetyMode()
      requires Valid()
      modifies this
      ensures Valid()
      ensures safetyMode == !old(safetyMode)
      ensures localStorage == old(localStorage)[StorageKeySafety := Text(BoolText(safetyMode))]
      ensures SavedSafety(localStorage) == safetyMode
      ensures visitedLinks == old(visitedLinks) && modalLink == old(modalLink) && openedUrls == old(openedUrls)
      ensures document == old(document) && lastUpdated == old(lastUpdated) && sent == old(sent)
    {
      var newState := !safetyMode;
      safetyMode := newState;
      localStorage := localStorage[StorageKeySafety := Text(BoolText(newState))];
    }

    /** `openLink`: open the URL, record it as visited (storing the list only when it is
        new), and clear `modalLink`. */
    method OpenLink(url: string)
      requires Valid()
      modifies this
      ensures Valid()
      ensures openedUrls == old(openedUrls) + [url]
      ensures Visited() == old(Visited()) + {url}
      ensures visitedLinks == if url in old(visitedLinks) then old(visitedLinks) else old(visitedLinks) + [url]
      ensures localStorage ==
        if url in old(visitedLinks) then old(localStorage)
        else old(localStorage)[StorageKeyVisited := LinkList(visitedLinks)]
      ensures modalLink == None
      ensures safetyMode == old(safetyMode)
      ensures document == old(document) && lastUpdated == old(lastUpdated) && sent == old(sent)
    {
      openedUrls := openedUrls + [url];
      if url !in visitedLinks {
        var newList := visitedLinks + [url];
        visitedLinks := newList;
        localStorage := localStorage[StorageKeyVisited := LinkList(newList)];
      }
      modalLink := None;
    }

    /** `handleLinkClick`: without safety mode every link opens; with it, a link already
        visited is not opened and only becomes `modalLink` (nothing the component renders
        reads that field), and a new one opens. */
    method HandleLinkClick(url: string)
      requires Valid()
      modifies this
      ensures Valid()
      ensures !old(safetyMode) || url !in old(Visited()) ==>
        && openedUrls == old(openedUrls) + [url] && modalLink == None
        && Visited() == old(Visited()) + {url}
        && visitedLinks == (if url in old(visitedLinks) then old(visitedLinks) else old(visitedLinks) + [url])
        && localStorage == (if url in old(visitedLinks) then old(localStorage)
                            else old(localStorage)[StorageKeyVisited := LinkList(visitedLinks)])
      ensures old(safetyMode) && url in old(Visited()) ==>
        && modalLink == Some(url) && openedUrls == old(openedUrls)
        && visitedLinks == old(visitedLinks) && localStorage == old(localStorage)
      ensures safetyMode == old(safetyMode)
      ensures document == old(document) && lastUpdated == old(lastUpdated) && sent == old(sent)
    {
      if !safetyMode {
        OpenLink(url);
        return;
      }
      if url in visitedLinks {
        modalLink := Some(url);
      } else {
        OpenLink(url);
      }
    }

    /** `onUpdate`: a local edit makes `html` the document and sends it in a `text_change`. */
    method OnUpdate(html: string, now: int)
      requires Valid()
      modifies this
      ensures Valid()
      ensures document == html && sent == old(sent) + [html] && lastUpdated == now
      ensures safetyMode == old(safetyMode) && visitedLinks == old(visitedLinks)
      ensures modalLink == old(modalLink) && openedUrls == old(openedUrls) && localStorage == old(localStorage)
    {
      sent := sent + [html];
      document := html;
      lastUpdated := now;
    }

    /** The `load_content` handler: content equal to the current document changes nothing;
        other content replaces the document without sending a `text_change`. */
    method OnLoadContent(data: string, now: int)
      requires Valid()
      modifies this
      ensures Valid()
      ensures document == data
      ensures lastUpdated == if old(document) == data then old(lastUpdated) else now
      ensures sent == old(sent)
      ensures safetyMode == old(safetyMode) && visitedLinks == old(visitedLinks)
      ensures modalLink == old(modalLink) && openedUrls == old(openedUrls) && localStorage == old(localStorage)
    {
      if document != data {
        document := data;
        lastUpdated := now;
      }
    }

    /** The `text_update` handler: the same guard as `load_content`; the selection it
        restores afterwards is not part of this state. */
    method OnTextUpdate(data: string, now: int)
      requires Valid()
      modifies this
      ensures Valid()
      ensures document == data
      ensures lastUpdated == if old(document) == data then old(lastUpdated) else now
      ensures sent == old(sent)
      ensures safetyMode == old(safetyMode) && visitedLinks == old(visitedLinks)
      ensures modalLink == old(modalLink) && openedUrls == old(openedUrls) && localStorage == old(localStorage)
    {
      if document != data {
        document := data;
        lastUpdated := now;
      }
    }
  }

  /** Reloading the page after a toggle: a new component on the same `localStorage`
      recovers the toggled safety mode once its mount effect has run. */
  method ReloadAfterToggle(e: EditorState, initialHtml: string, now: int) returns (reloaded: EditorState)
    requires e.Valid()
    modifies e
    ensures e.safetyMode == !old(e.safetyMode)
    ensures fresh(reloaded) && reloaded.Valid()
    ensures reloaded.safetyMode == e.safetyMode
  {
    e.ToggleSafetyMode();
    reloaded := new EditorState(e.roomId, e.localStorage, initialHtml, now);
    reloaded.LoadSettings();
  }

  /** Reloading the page after opening a new link: the new component recovers the visited
      links, in the same order, once its mount effect has run. */
  method ReloadAfterNewLink(e: EditorState, url: string, initialHtml: string, now: int) returns (reloaded: EditorState)
    requires e.Valid() && url !in e.Visited()
    modifies e
    ensures e.visitedLinks == old(e.visitedLinks) + [url]
    ensures fresh(reloaded) && reloaded.Valid()
    ensures reloaded.visitedLinks == e.visitedLinks
  {
    e.OpenLink(url);
    reloaded := new EditorState(e.roomId, e.localStorage, initialHtml, now);
    reloaded.LoadSettings();
    VisitedRoundTrip(old(e.localStorage), e.visitedLinks, []);
  }
}
