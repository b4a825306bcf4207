// JavaScript's `pathname.split('/')` and `segments.join('/')` on URL paths,
// and the locale segment that the language switcher and the navigation bar
// both read from the path.
module PathSegments {

  const Separator: char := '/'

  /** The locale used when the path carries none. */
  const DefaultLocale: string := "en"

  /** No segment contains the separator. */
  predicate NoSeparator(segs: seq<string>)
  {
    forall i :: 0 <= i < |segs| ==> Separator !in segs[i]
  }

  /**
   * `s.split('/')`: the maximal separator-free pieces of `s`, in order.
   * There is always at least one piece ("".split('/') is [""]).
   */
  function Split(s: string): (r: seq<string>)
    ensures |r| >= 1
    ensures NoSeparator(r)
  {
    if s == [] then [[]]
    else
      var rest := Split(s[1..]);
      if s[0] == Separator then [[]] + rest
      else [[s[0]] + rest[0]] + rest[1..]
  }

  /** `segs.join('/')`: the first segment, then a separator before each later one. */
  function Join(segs: seq<string>): (r: string)
    requires |segs| >= 1
    ensures segs[0] <= r
    ensures |segs| > 1 ==> |segs[0]| < |r| && r[|segs[0]|] == Separator
    ensures |segs| == 1 ==> r == segs[0]
  {
    if |segs| == 1 then segs[0] else segs[0] + [Separator] + Join(segs[1..])
  }

  /** Joining the pieces of a split gives back the original string. */
  lemma {:induction false} JoinSplit(s: string)
    ensures Join(Split(s)) == s
  {
    if s != [] {
      var rest := Split(s[1..]);
      JoinSplit(s[1..]);
      if s[0] == Separator {
        assert Split(s) == [[]] + rest;
      } else if |rest| == 1 {
        assert Split(s) == [[s[0]] + rest[0]];
      } else {
        assert Split(s) == [[s[0]] + rest[0]] + rest[1..];
        assert Join(rest) == rest[0] + [Separator] + Join(rest[1..]);
        assert ([s[0]] + rest[0]) + [Separator] + Join(rest[1..]) == [s[0]] + Join(rest);
      }
    }
  }

  /** A separator-free prefix glues onto the first piece of what follows it. */
  lemma {:induction false} SplitGluesPrefix(a: string, t: string)
    requires Separator !in a
    ensures Split(a + t) == [a + Split(t)[0]] + Split(t)[1..]
  {
    if a != [] {
      var s, r := a + t, Split(t);
      assert s[1..] == a[1..] + t;
      SplitGluesPrefix(a[1..], t);
      var rest := Split(s[1..]);
      assert rest == [a[1..] + r[0]] + r[1..];
      assert s[0] == a[0] && a[0] != Separator;
      assert Split(s) == [[a[0]] + rest[0]] + rest[1..];
      assert rest[0] == a[1..] + r[0] && rest[1..] == r[1..];
      assert [a[0]] + (a[1..] + r[0]) == a + r[0];
    } else {
      var r := Split(t);
      assert a + t == t;
      assert a + r[0] == r[0];
      assert [r[0]] + r[1..] == r;
    }
  }

  /** Splitting `a + "/" + t` yields `a` and then the pieces of `t`. */
  lemma SplitAtSeparator(a: string, t: string)
    requires Separator !in a
    ensures Split(a + [Separator] + t) == [a] + Split(t)
  {
    SplitGluesPrefix(a, [Separator] + t);
    assert a + [Separator] + t == a + ([Separator] + t);
    var u := [Separator] + t;
    assert u[0] == Separator && u[1..] == t;
    assert Split(u) == [[]] + Split(t);
    assert a + [] == a;
  }

  /** Splitting a join of separator-free pieces gives back the pieces. */
  lemma {:induction false} SplitJoin(segs: seq<string>)
    requires |segs| >= 1 && NoSeparator(segs)
    ensures Split(Join(segs)) == segs
  {
    if |segs| == 1 {
      SplitGluesPrefix(segs[0], []);
      assert segs[0] + [] == segs[0];
    } else {
      SplitJoin(segs[1..]);
      SplitAtSeparator(segs[0], Join(segs[1..]));
      assert segs == [segs[0]] + segs[1..];
    }
  }

  /**
   * `pathname.split('/')[1] || 'en'`: the second segment of the path, or the
   * default locale when that segment is missing or empty.
   */
  function LocaleOf(pathname: string): (r: string)
    ensures r != [] && Separator !in r
    ensures r != DefaultLocale ==> |Split(pathname)| > 1 && r == Split(pathname)[1]
    ensures |Split(pathname)| > 1 && Split(pathname)[1] != [] ==> r == Split(pathname)[1]
  {
    var segs := Split(pathname);
    if |segs| > 1 && segs[1] != [] then segs[1] else DefaultLocale
  }

  /**
   * Read directly on the text: in `s0/L/...` (or `s0/L`) with no separator
   * in `s0` or `L`, the locale is `L`, or the default when `L` is empty.
   * The result never contains a separator and is never empty.
   */
  lemma LocaleOfPath(s0: string, l: string, rest: string)
    requires Separator !in s0 && Separator !in l
    requires rest == [] || rest[0] == Separator
    ensures LocaleOf(s0 + [Separator] + l + rest) == (if l == [] then DefaultLocale else l)
    ensures LocaleOf(s0 + [Separator] + l + rest) != [] && Separator !in LocaleOf(s0 + [Separator] + l + rest)
  {
    var p := s0 + [Separator] + l + rest;
    assert p == s0 + [Separator] + (l + rest);
    SplitAtSeparator(s0, l + rest);
    SplitGluesPrefix(l, rest);
    if rest != [] {
      assert rest == [Separator] + rest[1..];
      assert Split(rest) == [[]] + Split(rest[1..]);
    }
    assert Split(rest)[0] == [];
    assert l + [] == l;
  }

  /** A path without any separator has no locale segment. */
  lemma LocaleOfFlatPath(p: string)
    requires Separator !in p
    ensures LocaleOf(p) == DefaultLocale
  {
    SplitGluesPrefix(p, []);
    assert p + [] == p;
  }
}
