/**
 * The locale the front end starts in: the first browser language tag whose
 * two-letter prefix is a supported language, else the default language.
 * The supported languages and the default are parameters, since the
 * constants that define them are not part of this model.
 */
module BrowserLanguage {
  import opened Wrappers

  /** The language properties of `window.navigator`; `None` is a missing or `null` value. */
  datatype Navigator = Navigator(
    languages: Option<seq<Option<string>>>,
    language: Option<string>,
    browserLanguage: Option<string>,
    userLanguage: Option<string>,
    systemLanguage: Option<string>)

  /** `R.reject(R.isNil)`. */
  function Present(xs: seq<Option<string>>): (r: seq<string>)
    ensures |r| <= |xs|
    ensures forall s :: s in r <==> Some(s) in xs
    decreases |xs|
  {
    if |xs| == 0 then []
    else
      var rest := Present(xs[1..]);
      assert forall x :: x in xs <==> x == xs[0] || x in xs[1..];
      if xs[0].Some? then [xs[0].value] + rest else rest
  }

  /** The tags in priority order: the `languages` list, then the four single properties. */
  function Candidates(nav: Navigator): seq<string> {
    var listed := if nav.languages.Some? then nav.languages.value else [];
    Present(listed + [nav.language, nav.browserLanguage, nav.userLanguage, nav.systemLanguage])
  }

  /** `x.substring(0, 2)`. */
  function Prefix2(s: string): (r: string)
    ensures |r| == if |s| < 2 then |s| else 2
  {
    if |s| < 2 then s else s[..2]
  }

  /** `R.find`: the first tag whose prefix is supported, as that prefix. */
  function FirstSupported(tags: seq<string>, supported: seq<string>): (r: Option<string>)
    ensures r.Some? <==> exists i :: 0 <= i < |tags| && Prefix2(tags[i]) in supported
    ensures r.Some? ==> r.value in supported
    ensures r.Some? ==>
      exists i :: 0 <= i < |tags| && Prefix2(tags[i]) == r.value && forall j :: 0 <= j < i ==> Prefix2(tags[j]) !in supported
    decreases |tags|
  {
    if |tags| == 0 then None
    else if Prefix2(tags[0]) in supported then Some(Prefix2(tags[0]))
    else
      var r := FirstSupported(tags[1..], supported);
      assert forall i :: 0 < i < |tags| ==> tags[i] == tags[1..][i - 1];
      if r.Some? then
        var i :| 0 <= i < |tags[1..]| && Prefix2(tags[1..][i]) == r.value
          && forall j :: 0 <= j < i ==> Prefix2(tags[1..][j]) !in supported;
        assert Prefix2(tags[i + 1]) == r.value;
        assert forall j :: 0 <= j < i + 1 ==> Prefix2(tags[j]) !in supported by {
          forall j | 0 <= j < i + 1
            ensures Prefix2(tags[j]) !in supported
          {
            if j > 0 {
              assert tags[j] == tags[1..][j - 1];
            }
          }
        }
        r
      else
        r
  }

  /** `detectedLocale(window.navigator) || DEFAULT_LANG`. */
  function Locale(nav: Navigator, supported: seq<string>, defaultLang: string): (r: string)
    ensures r in supported || r == defaultLang
    ensures FirstSupported(Candidates(nav), supported).None? ==> r == defaultLang
    ensures FirstSupported(Candidates(nav), supported).Some? && FirstSupported(Candidates(nav), supported).value != "" ==>
      r == FirstSupported(Candidates(nav), supported).value
  {
    var detected := FirstSupported(Candidates(nav), supported);
    if detected.Some? && detected.value != "" then detected.value else defaultLang
  }

  /** Only the first two characters of a tag are compared. */
  lemma {:induction false} OnlyPrefixMatters(a: seq<string>, b: seq<string>, supported: seq<string>)
    requires |a| == |b| && forall i :: 0 <= i < |a| ==> Prefix2(a[i]) == Prefix2(b[i])
    ensures FirstSupported(a, supported) == FirstSupported(b, supported)
    decreases |a|
  {
    if |a| > 0 {
      OnlyPrefixMatters(a[1..], b[1..], supported);
    }
  }

  /** A supported entry of the `languages` list wins over every single property. */
  lemma {:induction false} LanguagesFirst(nav: Navigator, supported: seq<string>)
    requires nav.languages.Some?
    requires exists t :: t in Present(nav.languages.value) && Prefix2(t) in supported
    ensures FirstSupported(Candidates(nav), supported) == FirstSupported(Present(nav.languages.value), supported)
  {
    var listed := nav.languages.value;
    var singles := [nav.language, nav.browserLanguage, nav.userLanguage, nav.systemLanguage];
    PresentAppend(listed, singles);
    FirstOfAppend(Present(listed), Present(singles), supported);
  }

  lemma {:induction false} PresentAppend(xs: seq<Option<string>>, ys: seq<Option<string>>)
    ensures Present(xs + ys) == Present(xs) + Present(ys)
    decreases |xs|
  {
    if |xs| > 0 {
      assert (xs + ys)[1..] == xs[1..] + ys;
      PresentAppend(xs[1..], ys);
    } else {
      assert xs + ys == ys;
    }
  }

  lemma {:induction false} FirstOfAppend(a: seq<string>, b: seq<string>, supported: seq<string>)
    requires exists t :: t in a && Prefix2(t) in supported
    ensures FirstSupported(a + b, supported) == FirstSupported(a, supported)
    decreases |a|
  {
    assert (a + b)[0] == a[0];
    if Prefix2(a[0]) !in supported {
      assert (a + b)[1..] == a[1..] + b;
      var t :| t in a && Prefix2(t) in supported;
      assert t in a[1..];
      FirstOfAppend(a[1..], b, supported);
    }
  }

  /** Missing and `null` entries are ignored. */
  lemma {:induction false} NilIgnored(xs: seq<Option<string>>, ys: seq<Option<string>>)
    ensures Present(xs + [None] + ys) == Present(xs + ys)
  {
    PresentAppend(xs + [None], ys);
    PresentAppend(xs, [None]);
    PresentAppend(xs, ys);
    assert Present([None]) == [];
    assert Present(xs) + [] == Present(xs);
  }

  lemma {:induction false} NoneAbsent(xs: seq<Option<string>>)
    requires forall i :: 0 <= i < |xs| ==> xs[i].None?
    ensures Present(xs) == []
    decreases |xs|
  {
    if |xs| > 0 {
      NoneAbsent(xs[1..]);
    }
  }

  /** The comparison is case-sensitive: an upper-case tag does not match a lower-case language. */
  lemma {:induction false} CaseSensitive(defaultLang: string)
    requires defaultLang != "en"
    ensures Locale(Navigator(Some([Some("EN-US")]), None, None, None, None), ["en"], defaultLang) == defaultLang
  {
    var nav := Navigator(Some([Some("EN-US")]), None, None, None, None);
    PresentAppend([Some("EN-US")], [None, None, None, None]);
    NoneAbsent([None, None, None, None]);
    assert Candidates(nav) == ["EN-US"];
    assert Prefix2("EN-US") == "EN";
  }
}
