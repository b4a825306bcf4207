// The language drop-down of the header: which language the current path is
// in, and the path a choice of language navigates to.
module LanguageSwitcher {
  import opened Common
  import opened PathSegments

  datatype Language = Language(code: string, name: string, flag: string)

  /** The languages the drop-down offers, English first. */
  const Languages: seq<Language> := [
    Language("en", "English", "\U{1F1FA}\U{1F1F8}"),
    Language("zh-CN", "\U{7B80}\U{4F53}\U{4E2D}\U{6587}", "\U{1F1E8}\U{1F1F3}"),
    Language("zh-HK", "\U{7E41}\U{9AD4}\U{4E2D}\U{6587}", "\U{1F1ED}\U{1F1F0}"),
    Language("ko-KR", "\U{D55C}\U{AD6D}\U{C5B4}", "\U{1F1F0}\U{1F1F7}")
  ]

  /** The first language in `langs` whose code is `code`, if any. */
  function FindLanguage(langs: seq<Language>, code: string): (r: Option<Language>)
    ensures r.Some? ==> r.value in langs && r.value.code == code
    ensures r.Some? ==> exists i :: 0 <= i < |langs| && langs[i] == r.value
                                   && forall j :: 0 <= j < i ==> langs[j].code != code
    ensures r.None? <==> forall i :: 0 <= i < |langs| ==> langs[i].code != code
  {
    if langs == [] then None
    else if langs[0].code == code then Some(langs[0])
    else
      var r := FindLanguage(langs[1..], code);
      if r.Some? then
        var i :| 0 <= i < |langs[1..]| && langs[1..][i] == r.value
                 && forall j :: 0 <= j < i ==> langs[1..][j].code != code;
        assert langs[i + 1] == r.value && forall j :: 0 <= j < i + 1 ==> langs[j].code != code;
        r
      else r
  }

  /**
   * `languages.find(lang => lang.code === currentLocale) || languages[0]`:
   * the language the path is in, English when its locale is not offered.
   */
  function CurrentLanguage(pathname: string): (r: Language)
    ensures r in Languages
    ensures (exists i :: 0 <= i < |Languages| && Languages[i].code == LocaleOf(pathname))
            ==> r.code == LocaleOf(pathname)
    ensures (forall i :: 0 <= i < |Languages| ==> Languages[i].code != LocaleOf(pathname))
            ==> r == Languages[0] && r.code == DefaultLocale
  {
    match FindLanguage(Languages, LocaleOf(pathname))
    case Some(lang) => lang
    case None => Languages[0]
  }

  /** `segments[1] = newLocale` on the array `split('/')` returned. */
  function WithLocaleSegment(segs: seq<string>, newLocale: string): (r: seq<string>)
    ensures |r| == (if |segs| > 1 then |segs| else |segs| + 1)
    ensures |segs| >= 1 ==> r[1] == newLocale
    ensures forall i :: 0 <= i < |segs| && i != 1 ==> r[i] == segs[i]
    ensures NoSeparator(segs) && Separator !in newLocale ==> NoSeparator(r)
  {
    if |segs| > 1 then segs[1 := newLocale] else segs + [newLocale]
  }

  /** The path `handleLanguageChange(newLocale)` navigates to. */
  function ReplaceLocale(pathname: string, newLocale: string): (r: string)
    ensures Separator !in newLocale ==> Split(r) == WithLocaleSegment(Split(pathname), newLocale)
  {
    var segs := WithLocaleSegment(Split(pathname), newLocale);
    if Separator !in newLocale then SplitJoin(segs); Join(segs)
    else Join(segs)
  }

  /**
   * Only segment 1 changes: it becomes `newLocale`, and every other segment
   * of the path stays where it was. A path with a single segment gains the
   * locale as its second.
   */
  lemma ReplaceLocaleSegments(pathname: string, newLocale: string)
    requires Separator !in newLocale
    ensures var before := Split(pathname);
            var after := Split(ReplaceLocale(pathname, newLocale));
            && |after| == (if |before| > 1 then |before| else 2)
            && after[1] == newLocale
            && forall i :: 0 <= i < |after| && i != 1 ==> after[i] == before[i]
  {
    var segs := WithLocaleSegment(Split(pathname), newLocale);
    assert NoSeparator(segs);
    SplitJoin(segs);
  }

  /** After switching to a language, the path reads as being in that language. */
  lemma ReplaceLocaleThenRead(pathname: string, newLocale: string)
    requires newLocale != [] && Separator !in newLocale
    ensures LocaleOf(ReplaceLocale(pathname, newLocale)) == newLocale
  {
    ReplaceLocaleSegments(pathname, newLocale);
  }

  /** Switching twice to the same language is switching once. */
  lemma ReplaceLocaleIdempotent(pathname: string, newLocale: string)
    requires Separator !in newLocale
    ensures ReplaceLocale(ReplaceLocale(pathname, newLocale), newLocale)
            == ReplaceLocale(pathname, newLocale)
  {
    var once := ReplaceLocale(pathname, newLocale);
    ReplaceLocaleSegments(pathname, newLocale);
    var segs := Split(once);
    assert WithLocaleSegment(segs, newLocale) == segs;
    JoinSplit(once);
  }

  /** Choosing the language the path is already in leaves the path as it is. */
  lemma ReplaceWithCurrentLocale(pathname: string)
    requires |Split(pathname)| > 1 && Split(pathname)[1] != []
    ensures ReplaceLocale(pathname, LocaleOf(pathname)) == pathname
  {
    var segs := Split(pathname);
    assert WithLocaleSegment(segs, LocaleOf(pathname)) == segs;
    JoinSplit(pathname);
  }

  /** The drop-down's state and the navigations it has asked the router for. */
  class Switcher {
    var isOpen: bool
    const pathname: string
    var pushes: seq<string>

    constructor (pathname: string)
      ensures !isOpen && this.pathname == pathname && pushes == []
    {
      isOpen := false;
      this.pathname := pathname;
      pushes := [];
    }

    /** The header button flips the drop-down. */
    method Toggle()
      modifies this
      ensures isOpen == !old(isOpen) && pushes == old(pushes)
    {
      isOpen := !isOpen;
    }

    /** A click on the overlay behind the open drop-down closes it. */
    method ClickOverlay()
      modifies this
      ensures !isOpen && pushes == old(pushes)
    {
      isOpen := false;
    }

    /**
     * `handleLanguageChange`: rewrite segment 1 of the split path, push the
     * joined path to the router and close the drop-down.
     */
    method HandleLanguageChange(newLocale: string)
      modifies this
      ensures pushes == old(pushes) + [ReplaceLocale(pathname, newLocale)]
      ensures !isOpen
    {
      var segments := Split(pathname);
      if |segments| > 1 {
        segments := segments[1 := newLocale];
      } else {
        segments := segments + [newLocale];
      }
      var newPath := Join(segments);
      pushes := pushes + [newPath];
      isOpen := false;
    }
  }
}
