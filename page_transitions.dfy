/**
 * The page-transition handler: a click on an internal link fades the page out
 * and then navigates, instead of navigating at once.
 */
module PageTransitions {
  import opened Wrappers

  /**
   * The click filter on a link's `href` attribute (`None` when it has none):
   * handle it when it is non-empty and starts with neither `#` nor `http`.
   */
  predicate HandlesLink(href: Option<string>)
    ensures HandlesLink(href) <==>
      href.Some? && |href.value| > 0 && href.value[0] != '#' &&
      !(|href.value| >= 4 && href.value[..4] == "http")
  {
    href.Some? && href.value != "" && !("#" <= href.value) && !("http" <= href.value)
  }

  /**
   * What the filter lets through: in-page anchors, absolute `http`/`https`
   * URLs, empty and missing attributes are left to the browser, while other
   * schemes and protocol-relative URLs count as internal, and so does nothing
   * that merely starts with the letters `http`.
   */
  lemma LinkFilterCases(rest: string)
    ensures !HandlesLink(None) && !HandlesLink(Some(""))
    ensures !HandlesLink(Some("#" + rest))
    ensures !HandlesLink(Some("http" + rest))
    ensures HandlesLink(Some("about.html")) && HandlesLink(Some("mailto:" + rest))
    ensures !HandlesLink(Some("httpdocs/about.html"))
  {
    assert "#" <= "#" + rest;
    assert "http" <= "http" + rest;
    assert "about.html"[0] != '#' && "about.html"[0] != 'h';
    assert ("mailto:" + rest)[0] == 'm';
  }

  /**
   * The attribute selector `a[href^=prefix]`. Under section 6.3.2 of Selectors
   * Level 3 an empty prefix makes the selector represent nothing.
   */
  predicate SelectedByPrefix(href: Option<string>, prefix: string)
    ensures SelectedByPrefix(href, prefix) <==>
      href.Some? && prefix != "" && |prefix| <= |href.value| && href.value[..|prefix|] == prefix
    ensures prefix == "" ==> !SelectedByPrefix(href, prefix)
  {
    href.Some? && prefix != "" && prefix <= href.value
  }

  /** As written: links are gathered with `a[href^=""]`, then filtered on click. */
  predicate TransitionOnClick(href: Option<string>)
  {
    SelectedByPrefix(href, "") && HandlesLink(href)
  }

  /** As written, no link ever gets the transition, not even an ordinary internal one. */
  lemma TransitionNeverRuns(href: Option<string>)
    ensures !TransitionOnClick(href)
    ensures HandlesLink(Some("about.html")) && !TransitionOnClick(Some("about.html"))
  {
    LinkFilterCases("");
  }

  /** The evident intent: gather every link that has an `href` (`a[href]`), then filter on click. */
  predicate IntendedTransitionOnClick(href: Option<string>)
  {
    href.Some? && HandlesLink(href)
  }

  /**
   * With `a[href]`, exactly the links the filter accepts get the transition:
   * every non-empty href whose first character is not `#` and whose first four
   * characters are not `http`, and no other.
   */
  lemma IntendedTransitionMatchesFilter(href: Option<string>)
    ensures IntendedTransitionOnClick(href) <==> HandlesLink(href)
    ensures href.None? ==> !IntendedTransitionOnClick(href)
    ensures href.Some? ==>
      (IntendedTransitionOnClick(href) <==>
        |href.value| > 0 && href.value[0] != '#' && !(|href.value| >= 4 && href.value[..4] == "http"))
    ensures IntendedTransitionOnClick(Some("about.html"))
  {
    LinkFilterCases("");
  }
}
