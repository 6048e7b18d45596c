/** The navbar's background switch on scroll. */
module Navigation {
  import opened ClassLists

  const SolidClass := "bg-gray-900"
  const TranslucentClass := "bg-gray-900/80"
  const ScrollThreshold: real := 50.0

  /**
   * The navbar's classes after a scroll event at vertical offset `scrollY`:
   * solid strictly past the threshold, translucent otherwise, never both, and
   * every other class kept.
   */
  function NavbarOnScroll(c: ClassList, scrollY: real): (r: ClassList)
    ensures SolidClass in r <==> scrollY > ScrollThreshold
    ensures TranslucentClass in r <==> scrollY <= ScrollThreshold
    ensures r - {SolidClass, TranslucentClass} == c - {SolidClass, TranslucentClass}
  {
    if scrollY > ScrollThreshold then Remove(Add(c, SolidClass), TranslucentClass)
    else Add(Remove(c, SolidClass), TranslucentClass)
  }

  /** Only the latest scroll event matters: earlier ones leave no trace. */
  lemma LatestScrollDecides(c: ClassList, earlier: real, later: real)
    ensures NavbarOnScroll(NavbarOnScroll(c, earlier), later) == NavbarOnScroll(c, later)
  {
  }
}
