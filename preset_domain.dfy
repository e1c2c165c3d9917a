/**
 * The preset domains and the keyword table that guesses, from free text,
 * which of them a piece of content belongs to.
 */
module PresetDomain {
  import opened Text

  /** The preset domains. */
  datatype Preset =
    | Endpoint | Network | WebApp | EmailInfiltration | DataExfiltration
    | UrlFiltering | Cloud | Tabletop | ToClassify

  /** The name each preset domain is stored under. */
  function Name(p: Preset): string {
    match p
    case Endpoint => "Endpoint"
    case Network => "Network"
    case WebApp => "Web App"
    case EmailInfiltration => "E-mail Infiltration"
    case DataExfiltration => "Data Exfiltration"
    case UrlFiltering => "URL Filtering"
    case Cloud => "Cloud"
    case Tabletop => "Tabletop"
    case ToClassify => "To classify"
  }

  /** The colour each preset domain is stored with. */
  function Colour(p: Preset): string {
    match p
    case Endpoint => "#389CFF"
    case Network => "#009933"
    case WebApp => "#FF9933"
    case EmailInfiltration => "#FF6666"
    case DataExfiltration => "#9933CC"
    case UrlFiltering => "#66CCFF"
    case Cloud => "#9999CC"
    case Tabletop => "#FFCC33"
    case ToClassify => "#FFFFFF"
  }

  /** The domains that have keywords, and so can be found from text. */
  const KeywordDomains: seq<Preset> := [Network, WebApp, EmailInfiltration, DataExfiltration, UrlFiltering, Cloud]

  /** The keyword table. */
  function Keywords(p: Preset): (r: seq<string>)
    ensures p in KeywordDomains <==> |r| > 0
    ensures forall k :: 0 <= k < |r| ==> |r[k]| > 0
  {
    match p
    case Network => ["network", "ftp", "smb", "llmnr", "nmap"]
    case WebApp => ["web"]
    case EmailInfiltration => ["mail", "phishing"]
    case DataExfiltration => ["exfiltrat"]
    case UrlFiltering => ["bitsadmin"]
    case Cloud => ["aws", "azure", "gcp"]
    case _ => []
  }

  /** `foundInKeywords`: some keyword, lower-cased, occurs in the lower-cased search value. */
  predicate FoundInKeywords(keywords: seq<string>, searchValue: string) {
    exists k :: 0 <= k < |keywords| && Contains(ToLower(searchValue), ToLower(keywords[k]))
  }

  /** The domains `getRelevantDomainsFromKeywords` is to return. */
  function RelevantDomains(searchValue: string): (r: set<Preset>)
    ensures r <= {Network, WebApp, EmailInfiltration, DataExfiltration, UrlFiltering, Cloud}
    ensures Endpoint !in r && Tabletop !in r && ToClassify !in r
    ensures forall p :: p in r <==> exists k :: 0 <= k < |Keywords(p)| && Contains(ToLower(searchValue), ToLower(Keywords(p)[k]))
  {
    set p | p in KeywordDomains && FoundInKeywords(Keywords(p), searchValue)
  }

  /** `getRelevantDomainsFromKeywords`: every domain of the table one of whose keywords is found. */
  method GetRelevantDomainsFromKeywords(searchValue: string) returns (domains: set<Preset>)
    ensures domains == RelevantDomains(searchValue)
  {
    domains := {};
    for i := 0 to |KeywordDomains|
      invariant domains == set p | p in KeywordDomains[..i] && FoundInKeywords(Keywords(p), searchValue)
    {
      var domain := KeywordDomains[i];
      if FoundInKeywords(Keywords(domain), searchValue) {
        domains := domains + {domain};
      }
      assert KeywordDomains[..i + 1] == KeywordDomains[..i] + [domain];
    }
    assert KeywordDomains[..|KeywordDomains|] == KeywordDomains;
  }

  // ---------------------------------------------------------------- properties

  /** Lower-casing keeps an occurrence where it was. */
  lemma {:induction false} LowerOccurs(s: string, needle: string, i: int)
    requires OccursAt(s, needle, i)
    ensures OccursAt(ToLower(s), ToLower(needle), i)
  {
    assert forall j :: 0 <= j < |needle| ==> ToLower(s)[i + j] == ToLowerChar(s[i + j]) && s[i + j] == needle[j];
    assert ToLower(s)[i..i + |needle|] == ToLower(needle);
  }

  /** A search value with nothing in it finds no domain. */
  lemma {:induction false} EmptySearchFindsNothing()
    ensures RelevantDomains("") == {}
  {
    forall p, k | 0 <= k < |Keywords(p)|
      ensures !Contains(ToLower(""), ToLower(Keywords(p)[k]))
    {
    }
  }

  /** Searching a longer text finds at least the domains its part finds. */
  lemma {:induction false} Monotone(s: string, t: string)
    requires Contains(t, s)
    ensures RelevantDomains(s) <= RelevantDomains(t)
  {
    var i :| 0 <= i <= |t| - |s| && OccursAt(t, s, i);
    LowerOccurs(t, s, i);
    forall p | p in RelevantDomains(s)
      ensures p in RelevantDomains(t)
    {
      var k :| 0 <= k < |Keywords(p)| && Contains(ToLower(s), ToLower(Keywords(p)[k]));
      ContainsTransitive(ToLower(t), ToLower(s), ToLower(Keywords(p)[k]));
    }
  }

  /** Matching ignores case: upper-casing the search value finds the same domains. */
  lemma {:induction false} CaseIgnored(s: string)
    ensures RelevantDomains(ToUpper(s)) == RelevantDomains(s)
  {
    UpperForgetsCase(s);
  }

  /** Keyword `k` of domain `p`, occurring in `s`, puts `p` in the result. */
  lemma {:induction false} FoundIn(s: string, p: Preset, k: nat)
    requires k < |Keywords(p)| && Contains(s, Keywords(p)[k])
    ensures p in RelevantDomains(s)
  {
    var i :| 0 <= i <= |s| - |Keywords(p)[k]| && OccursAt(s, Keywords(p)[k], i);
    LowerOccurs(s, Keywords(p)[k], i);
  }

  /** A text holding one keyword of each keyword domain finds all six. */
  lemma {:induction false} OneKeywordEach(s: string)
    requires Contains(s, "network") && Contains(s, "web") && Contains(s, "mail")
    requires Contains(s, "exfiltrat") && Contains(s, "bitsadmin") && Contains(s, "aws")
    ensures RelevantDomains(s) == {Network, WebApp, EmailInfiltration, DataExfiltration, UrlFiltering, Cloud}
  {
    FoundIn(s, Network, 0);
    FoundIn(s, WebApp, 0);
    FoundIn(s, EmailInfiltration, 0);
    FoundIn(s, DataExfiltration, 0);
    FoundIn(s, UrlFiltering, 0);
    FoundIn(s, Cloud, 0);
  }

  /**
   * One word per keyword domain finds all six: the search value is the
   * words joined by spaces, `network web email exfiltrat bitsadmin aws`,
   * `mail` occurring inside `email`.
   */
  lemma {:induction false} AllSixFound()
    ensures RelevantDomains(Join(["network", "web", "email", "exfiltrat", "bitsadmin", "aws"], " ")) == {Network, WebApp, EmailInfiltration, DataExfiltration, UrlFiltering, Cloud}
  {
    var words := ["network", "web", "email", "exfiltrat", "bitsadmin", "aws"];
    var s := Join(words, " ");
    forall k | 0 <= k < |words|
      ensures Contains(s, words[k])
    {
      JoinContainsPart(words, " ", k);
    }
    assert "email"[1..5] == "mail";
    assert OccursAt(words[2], "mail", 1);
    ContainsTransitive(s, words[2], "mail");
    OneKeywordEach(s);
  }
}
