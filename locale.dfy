/**
 * Locales: the routing constants, the language selector's path rewrite and
 * the per-request locale resolution with its message lookup.
 */
module Locale {
  import opened Wrappers
  import opened Strings

  /** The supported locales, in the order the selector lists them. */
  const Locales: seq<string> := ["en", "pt"]

  const DefaultLocale: string := "en"

  predicate IsSupported(segment: Option<string>)
  {
    segment.Some? && segment.value in Locales
  }

  // ---------------------------------------------------------------------------
  // LanguageSelector
  // ---------------------------------------------------------------------------

  /** `pathname.split("/")[1]`; None stands for `undefined` when there is no second piece. */
  function CurrentLocale(pathname: string): Option<string>
  {
    var segments := Split(pathname, '/');
    if |segments| > 1 then Some(segments[1]) else None
  }

  /** The path the selector navigates to when `newLocale` is chosen on `pathname`. */
  function SwitchedPath(pathname: string, newLocale: string): string
  {
    var segments := Split(pathname, '/');
    if !IsSupported(CurrentLocale(pathname)) then
      "/" + newLocale + (if pathname == "/" then "" else pathname)
    else
      var joined := Join(segments[1 := newLocale], "/");
      if joined == "" then "/" else joined
  }

  /**
   * The change handler: split the path into an array of segments, insert the
   * locale when the second segment is not a supported one, otherwise overwrite
   * that segment in place and join.
   */
  method HandleChange(pathname: string, newLocale: string) returns (target: string)
    ensures target == SwitchedPath(pathname, newLocale)
    ensures target != ""
  {
    var parts := Split(pathname, '/');
    var segments := new string[|parts|](i requires 0 <= i < |parts| => parts[i]);
    if !(segments.Length > 1 && segments[1] in Locales) {
      target := "/" + newLocale + (if pathname == "/" then "" else pathname);
    } else {
      segments[1] := newLocale;
      assert segments[..] == parts[1 := newLocale];
      var joined := Join(segments[..], "/");
      target := if joined == "" then "/" else joined;
    }
  }

  /** When the second segment is a supported locale, only that segment changes. */
  lemma SwitchReplacesOnlyLocaleSegment(pathname: string, newLocale: string)
    requires IsSupported(CurrentLocale(pathname))
    requires '/' !in newLocale
    ensures Split(SwitchedPath(pathname, newLocale), '/') == Split(pathname, '/')[1 := newLocale]
  {
    var segments := Split(pathname, '/')[1 := newLocale];
    SplitJoin(segments, '/');
  }

  /** Prefixing "/" + a separator-free locale to a rooted path puts the locale in the second piece. */
  lemma {:induction false} PrefixedLocaleSplit(newLocale: string, rest: string)
    requires '/' !in newLocale
    requires rest == [] || rest[0] == '/'
    ensures Split("/" + newLocale + rest, '/') == ["", newLocale] + Split(rest, '/')[1..]
  {
    var s := "/" + newLocale + rest;
    assert s[0] == '/' && s[1..] == newLocale + rest;
    SplitAfterPlain(newLocale, rest, '/');
    if rest == [] {
      assert newLocale + rest == newLocale && newLocale + "" == newLocale;
    } else {
      assert rest == [rest[0]] + rest[1..];
      assert Split(rest, '/')[0] == "";
      assert newLocale + "" == newLocale;
    }
  }

  /** On a rooted path, the selector's result names `newLocale` as its current locale. */
  lemma SwitchedLocaleIsCurrent(pathname: string, newLocale: string)
    requires |pathname| > 0 && pathname[0] == '/'
    requires '/' !in newLocale
    ensures CurrentLocale(SwitchedPath(pathname, newLocale)) == Some(newLocale)
  {
    if IsSupported(CurrentLocale(pathname)) {
      SwitchReplacesOnlyLocaleSegment(pathname, newLocale);
    } else if pathname == "/" {
      PrefixedLocaleSplit(newLocale, "");
    } else {
      PrefixedLocaleSplit(newLocale, pathname);
    }
  }

  /** Choosing the same supported locale twice lands on the same path as choosing it once. */
  lemma SwitchIdempotent(pathname: string, newLocale: string)
    requires |pathname| > 0 && pathname[0] == '/'
    requires newLocale in Locales
    ensures SwitchedPath(SwitchedPath(pathname, newLocale), newLocale) == SwitchedPath(pathname, newLocale)
  {
    var once := SwitchedPath(pathname, newLocale);
    SwitchedLocaleIsCurrent(pathname, newLocale);
    var segments := Split(once, '/');
    assert segments[1 := newLocale] == segments;
    JoinSplit(once, '/');
  }

  /**
   * The rewrite read on a rooted path "/" + first + rest: a supported first
   * segment is swapped for the new locale, anything else gets the new locale
   * in front (and "/" becomes just "/" + locale).
   */
  lemma SwitchOnRootedPath(first: string, rest: string, newLocale: string)
    requires '/' !in first
    requires rest == [] || rest[0] == '/'
    requires '/' !in newLocale
    ensures first in Locales ==>
      SwitchedPath("/" + first + rest, newLocale) == "/" + newLocale + rest
    ensures first !in Locales && first + rest == "" ==>
      SwitchedPath("/" + first + rest, newLocale) == "/" + newLocale
    ensures first !in Locales && first + rest != "" ==>
      SwitchedPath("/" + first + rest, newLocale) == "/" + newLocale + "/" + first + rest
  {
    var pathname := "/" + first + rest;
    PrefixedLocaleSplit(first, rest);
    var segments := Split(pathname, '/');
    assert CurrentLocale(pathname) == Some(first);
    if first in Locales {
      var replaced := segments[1 := newLocale];
      SplitJoin(replaced, '/');
      PrefixedLocaleSplit(newLocale, rest);
      assert Split("/" + newLocale + rest, '/') == replaced;
      JoinSplit(pathname, '/');
      JoinSplit("/" + newLocale + rest, '/');
    } else if first + rest == "" {
      assert pathname == "/";
    } else {
      assert pathname != "/";
    }
  }

  // ---------------------------------------------------------------------------
  // Request configuration
  // ---------------------------------------------------------------------------

  datatype RequestConfig<M> = RequestConfig(locale: string, messages: M)

  /** The message catalogues by locale: English and Portuguese. */
  function MessagesMap<M>(en: M, pt: M): map<string, M>
  {
    map["en" := en, "pt" := pt]
  }

  /** The requested locale when it is supported, otherwise the default locale. */
  function ResolveLocale(requested: Option<string>): (locale: string)
    ensures locale in Locales
    ensures IsSupported(requested) ==> locale == requested.value
    ensures !IsSupported(requested) ==> locale == DefaultLocale
  {
    if IsSupported(requested) then requested.value else DefaultLocale
  }

  /** The request configuration: the resolved locale and that locale's catalogue. */
  function GetRequestConfig<M>(requested: Option<string>, en: M, pt: M): (config: RequestConfig<M>)
    ensures config.locale in Locales && config.locale in MessagesMap(en, pt)
    ensures config.locale == ResolveLocale(requested)
    ensures config.messages == (if config.locale == "en" then en else pt)
  {
    var locale := ResolveLocale(requested);
    RequestConfig(locale, MessagesMap(en, pt)[locale])
  }

  /** Resolving an already resolved locale changes nothing. */
  lemma ResolveIdempotent(requested: Option<string>)
    ensures ResolveLocale(Some(ResolveLocale(requested))) == ResolveLocale(requested)
  {
  }

  /** Every supported locale has a catalogue and every catalogue belongs to a supported locale. */
  lemma MessagesCoverLocales<M>(en: M, pt: M)
    ensures forall l :: l in MessagesMap(en, pt) <==> l in Locales
  {
  }
}
