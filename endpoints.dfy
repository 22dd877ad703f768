/** URL builders for the Blizzard Battle.net API
    (src/tp2025/blizzard_api/endpoints.py).

    The region, locale and default namespaces are read from the process
    environment when the source module is imported; here they are the
    fields of a Config, and DefaultConfig holds the fallbacks used when
    the variables are unset.

    Every builder produces a resource URL of one shape,
      https://{region}.api.blizzard.com/{segment}/.../{segment}?namespace={ns}&locale={loc}
    and ParseUrl reads such a URL back into its parts; ParseResourceUrl
    proves that the two are inverse on URLs whose parts hold no
    separator character. */
module Endpoints {
  import opened Errors
  import opened Text

  /** The four settings the source takes from the environment. */
  datatype Config = Config(region: string, locale: string, pvpNamespace: string, profileNamespace: string)

  /** BLIZZARD_REGION, BLIZZARD_LOCALE, BLIZZARD_PVP_NAMESPACE and
      BLIZZARD_PROFILE_NAMESPACE left unset. */
  const DefaultConfig: Config := Config("us", "en_US", "dynamic-us", "profile-us")

  const HostSuffix: string := ".api.blizzard.com"

  /** `get_base_url()` for the configured region. */
  function BaseUrl(region: string): (url: string)
    ensures StartsWith(url, "https://") && EndsWith(url, HostSuffix)
    ensures |url| == 8 + |region| + |HostSuffix|
    ensures url[8..|url| - |HostSuffix|] == region
  {
    assert ("https://" + region + HostSuffix)[..8] == "https://";
    "https://" + region + HostSuffix
  }

  /** `x or fallback` on an optional string: None and "" are both falsy. */
  function OrDefault(x: Option<string>, fallback: string): (r: string)
    ensures x.Some? && x.value != "" ==> r == x.value
    ensures x.None? || x.value == "" ==> r == fallback
  {
    if x.Some? && x.value != "" then x.value else fallback
  }

  /** The parts of a resource URL: the region, the path segments after the
      host, and the two query parameters. */
  datatype UrlParts = UrlParts(region: string, path: seq<string>, namespace: string, locale: string)

  function PathPart(p: UrlParts): string {
    BaseUrl(p.region) + "/" + Join(p.path, '/')
  }

  function QueryPart(p: UrlParts): string {
    ("namespace=" + p.namespace) + "&" + ("locale=" + p.locale)
  }

  /** The f-string shape every builder shares:
      `{base}/{segment}/.../{segment}?namespace={ns}&locale={loc}` */
  function ResourceUrl(p: UrlParts): string {
    PathPart(p) + "?" + QueryPart(p)
  }

  /** `get_pvp_season_index_url(namespace=, locale=)` */
  function PvpSeasonIndexUrl(cfg: Config, namespace: Option<string>, locale: Option<string>): string {
    ResourceUrl(UrlParts(cfg.region, ["data", "wow", "pvp-season", "index"],
                         OrDefault(namespace, cfg.pvpNamespace), OrDefault(locale, cfg.locale)))
  }

  /** `get_pvp_leaderboard_url(season_id=, bracket=, namespace=, locale=)`;
      the season id is formatted with `str`. */
  function PvpLeaderboardUrl(cfg: Config, seasonId: int, bracket: string,
                             namespace: Option<string>, locale: Option<string>): string {
    ResourceUrl(UrlParts(cfg.region, ["data", "wow", "pvp-season", IntToDecimal(seasonId), "pvp-leaderboard", bracket],
                         OrDefault(namespace, cfg.pvpNamespace), OrDefault(locale, cfg.locale)))
  }

  /** `_normalize_character_name`: the API expects lower-case names. */
  function NormalizeCharacterName(characterName: string): (r: string)
    ensures |r| == |characterName|
    ensures forall i :: 0 <= i < |r| ==> !IsUpper(r[i])
    ensures EqualIgnoringCase(r, characterName)
  {
    Lower(characterName)
  }

  /** The parts of a character URL; `leaf` is the sub-resource after the
      name, if any. */
  function CharacterParts(cfg: Config, realmSlug: string, characterName: string, leaf: seq<string>,
                          namespace: Option<string>, locale: Option<string>): UrlParts {
    UrlParts(cfg.region, ["profile", "wow", "character", realmSlug, NormalizeCharacterName(characterName)] + leaf,
             OrDefault(namespace, cfg.profileNamespace), OrDefault(locale, cfg.locale))
  }

  /** `get_character_profile_url(realm_slug=, character_name=, namespace=, locale=)` */
  function CharacterProfileUrl(cfg: Config, realmSlug: string, characterName: string,
                               namespace: Option<string>, locale: Option<string>): string {
    ResourceUrl(CharacterParts(cfg, realmSlug, characterName, [], namespace, locale))
  }

  /** `get_character_professions_url(...)` */
  function CharacterProfessionsUrl(cfg: Config, realmSlug: string, characterName: string,
                                   namespace: Option<string>, locale: Option<string>): string {
    ResourceUrl(CharacterParts(cfg, realmSlug, characterName, ["professions"], namespace, locale))
  }

  /** `get_character_achievements_url(...)` */
  function CharacterAchievementsUrl(cfg: Config, realmSlug: string, characterName: string,
                                    namespace: Option<string>, locale: Option<string>): string {
    ResourceUrl(CharacterParts(cfg, realmSlug, characterName, ["achievements"], namespace, locale))
  }

  // -----------------------------------------------------------------------
  // Reading a resource URL back
  // -----------------------------------------------------------------------

  /** A string that holds none of the URL's separators. */
  predicate Plain(s: string) {
    '/' !in s && '?' !in s && '&' !in s
  }

  /** Parts that ResourceUrl writes unambiguously: no separator inside a
      part, and at least one path segment. */
  predicate Encodable(p: UrlParts) {
    && Plain(p.region) && Plain(p.namespace) && Plain(p.locale)
    && |p.path| >= 1 && forall s :: s in p.path ==> Plain(s)
  }

  /** Splits a URL at '?', the path at '/' and the query at '&'; None for
      anything that is not a resource URL with exactly the two parameters
      namespace and locale. */
  function ParseUrl(url: string): (r: Option<UrlParts>)
    ensures r.Some? ==> |r.value.path| >= 1
  {
    var halves := Split(url, '?');
    if |halves| != 2 then None
    else
      var segments := Split(halves[0], '/');
      var params := Split(halves[1], '&');
      if || |segments| < 4 || segments[0] != "https:" || segments[1] != ""
         || !EndsWith(segments[2], HostSuffix)
         || |params| != 2 || !StartsWith(params[0], "namespace=") || !StartsWith(params[1], "locale=")
      then None
      else
        Some(UrlParts(segments[2][..|segments[2]| - |HostSuffix|], segments[3..],
                      params[0][|"namespace="|..], params[1][|"locale="|..]))
  }

  lemma {:induction false} JoinAvoids(parts: seq<string>, sep: char, c: char)
    requires c != sep
    requires forall s :: s in parts ==> c !in s
    ensures c !in Join(parts, sep)
  {
    if |parts| > 1 {
      JoinAvoids(parts[1..], sep, c);
      assert parts[0] in parts;
    } else if |parts| == 1 {
      assert parts[0] in parts;
    }
  }

  lemma UrlHalves(p: UrlParts)
    requires Encodable(p)
    ensures Split(ResourceUrl(p), '?') == [PathPart(p), QueryPart(p)]
  {
    JoinAvoids(p.path, '/', '?');
    assert '?' !in PathPart(p);
    assert '?' !in QueryPart(p);
    SplitAfter(PathPart(p), QueryPart(p), '?');
    SplitNone(QueryPart(p), '?');
  }

  /** The path half seen as separators: `https:`, an empty segment, the
      host, then the joined path. */
  lemma PathPartLayout(region: string, joined: string)
    ensures BaseUrl(region) + "/" + joined
         == "https:" + ['/'] + ([] + ['/'] + ((region + HostSuffix) + ['/'] + joined))
  {
    assert "https://" == "https:" + ['/'] + ['/'];
  }

  lemma HostIsPlain(region: string)
    requires Plain(region)
    ensures '/' !in region + HostSuffix
  {
  }

  lemma PathSegments(p: UrlParts)
    requires Encodable(p)
    ensures Split(PathPart(p), '/') == ["https:", "", p.region + HostSuffix] + p.path
  {
    var host := p.region + HostSuffix;
    var joined := Join(p.path, '/');
    var s1 := host + ['/'] + joined;
    var s2 := [] + ['/'] + s1;
    PathPartLayout(p.region, joined);
    HostIsPlain(p.region);
    SplitJoin(p.path, '/');
    SplitAfter(host, joined, '/');
    SplitAfter([], s1, '/');
    SplitAfter("https:", s2, '/');
  }

  lemma QueryParams(p: UrlParts)
    requires Encodable(p)
    ensures Split(QueryPart(p), '&') == ["namespace=" + p.namespace, "locale=" + p.locale]
  {
    assert '&' !in "namespace=" + p.namespace;
    assert '&' !in "locale=" + p.locale;
    SplitAfter("namespace=" + p.namespace, "locale=" + p.locale, '&');
    SplitNone("locale=" + p.locale, '&');
  }

  /** ParseUrl inverts ResourceUrl. */
  lemma ParseResourceUrl(p: UrlParts)
    requires Encodable(p)
    ensures ParseUrl(ResourceUrl(p)) == Some(p)
  {
    UrlHalves(p);
    PathSegments(p);
    QueryParams(p);
    var host := p.region + HostSuffix;
    var nsPart, locPart := "namespace=" + p.namespace, "locale=" + p.locale;
    assert host[|host| - |HostSuffix|..] == HostSuffix;
    assert host[..|host| - |HostSuffix|] == p.region;
    assert nsPart[..|"namespace="|] == "namespace=";
    assert nsPart[|"namespace="|..] == p.namespace;
    assert locPart[..|"locale="|] == "locale=";
    assert locPart[|"locale="|..] == p.locale;
  }

  /** ResourceUrl never gives one URL to two different encodable parts. */
  lemma ResourceUrlInjective(p: UrlParts, q: UrlParts)
    requires Encodable(p) && Encodable(q)
    requires ResourceUrl(p) == ResourceUrl(q)
    ensures p == q
  {
    ParseResourceUrl(p);
    ParseResourceUrl(q);
  }

  // -----------------------------------------------------------------------
  // What the builders promise
  // -----------------------------------------------------------------------

  /** `str(n)` writes only digits and a minus sign. */
  lemma DecimalIsPlain(n: int)
    ensures Plain(IntToDecimal(n))
  {
    var s := IntToDecimal(n);
    forall i | 0 <= i < |s|
      ensures s[i] != '/' && s[i] != '?' && s[i] != '&'
    {
      if n < 0 && i > 0 {
        assert s[1..][i - 1] == s[i];
      }
    }
  }

  /** The season-index URL reads back as the region, the path
      data/wow/pvp-season/index, and the PvP namespace and configured
      locale unless non-empty ones are given. */
  lemma ParsePvpSeasonIndexUrl(cfg: Config, namespace: Option<string>, locale: Option<string>)
    requires Plain(cfg.region)
    requires Plain(OrDefault(namespace, cfg.pvpNamespace)) && Plain(OrDefault(locale, cfg.locale))
    ensures ParseUrl(PvpSeasonIndexUrl(cfg, namespace, locale))
      == Some(UrlParts(cfg.region, ["data", "wow", "pvp-season", "index"],
                       OrDefault(namespace, cfg.pvpNamespace), OrDefault(locale, cfg.locale)))
  {
    var parts := UrlParts(cfg.region, ["data", "wow", "pvp-season", "index"],
                          OrDefault(namespace, cfg.pvpNamespace), OrDefault(locale, cfg.locale));
    assert Encodable(parts);
    ParseResourceUrl(parts);
  }

  /** With every setting left unset, the season-index URL is
      https://us.api.blizzard.com/data/wow/pvp-season/index?namespace=dynamic-us&locale=en_US,
      read back part by part. */
  lemma DefaultSeasonIndexUrl()
    ensures ParseUrl(PvpSeasonIndexUrl(DefaultConfig, None, None))
         == Some(UrlParts("us", ["data", "wow", "pvp-season", "index"], "dynamic-us", "en_US"))
  {
    assert Plain("us") && Plain("dynamic-us") && Plain("en_US");
    ParsePvpSeasonIndexUrl(DefaultConfig, None, None);
  }

  /** The leaderboard URL reads back as the region, the path
      data/wow/pvp-season/{season}/pvp-leaderboard/{bracket}, and the PvP
      namespace and configured locale unless others are given. */
  lemma ParsePvpLeaderboardUrl(cfg: Config, seasonId: int, bracket: string,
                               namespace: Option<string>, locale: Option<string>)
    requires Plain(cfg.region) && Plain(bracket)
    requires Plain(OrDefault(namespace, cfg.pvpNamespace)) && Plain(OrDefault(locale, cfg.locale))
    ensures ParseUrl(PvpLeaderboardUrl(cfg, seasonId, bracket, namespace, locale))
      == Some(UrlParts(cfg.region, ["data", "wow", "pvp-season", IntToDecimal(seasonId), "pvp-leaderboard", bracket],
                       OrDefault(namespace, cfg.pvpNamespace), OrDefault(locale, cfg.locale)))
  {
    DecimalIsPlain(seasonId);
    ParseResourceUrl(UrlParts(cfg.region,
                              ["data", "wow", "pvp-season", IntToDecimal(seasonId), "pvp-leaderboard", bracket],
                              OrDefault(namespace, cfg.pvpNamespace), OrDefault(locale, cfg.locale)));
  }

  /** Two leaderboard URLs built with the same settings are equal exactly
      when season and bracket are; the season id is the integer that the
      fourth path segment parses to. */
  lemma PvpLeaderboardUrlInjective(cfg: Config, s1: int, b1: string, s2: int, b2: string,
                                   namespace: Option<string>, locale: Option<string>)
    requires Plain(cfg.region) && Plain(b1) && Plain(b2)
    requires Plain(OrDefault(namespace, cfg.pvpNamespace)) && Plain(OrDefault(locale, cfg.locale))
    ensures PvpLeaderboardUrl(cfg, s1, b1, namespace, locale) == PvpLeaderboardUrl(cfg, s2, b2, namespace, locale)
            <==> s1 == s2 && b1 == b2
    ensures var r := ParseUrl(PvpLeaderboardUrl(cfg, s1, b1, namespace, locale));
      r.Some? && |r.value.path| == 6 && ParseInt(r.value.path[3]) == Some(s1)
  {
    ParsePvpLeaderboardUrl(cfg, s1, b1, namespace, locale);
    ParsePvpLeaderboardUrl(cfg, s2, b2, namespace, locale);
    IntDecimalRoundTrip(s1);
    if PvpLeaderboardUrl(cfg, s1, b1, namespace, locale) == PvpLeaderboardUrl(cfg, s2, b2, namespace, locale) {
      IntToDecimalInjective(s1, s2);
    }
  }

  /** Lower-casing adds no separator. */
  lemma LowerKeepsPlain(s: string)
    requires Plain(s)
    ensures Plain(Lower(s))
  {
    var r := Lower(s);
    forall i | 0 <= i < |r|
      ensures r[i] != '/' && r[i] != '?' && r[i] != '&'
    {
      assert s[i] in s;
    }
  }

  /** A character URL reads back as the region, the path
      profile/wow/character/{realm}/{lower-cased name} followed by the
      sub-resource, and the profile namespace and configured locale unless
      others are given. */
  lemma ParseCharacterUrl(cfg: Config, realmSlug: string, characterName: string, leaf: seq<string>,
                          namespace: Option<string>, locale: Option<string>)
    requires leaf == [] || leaf == ["professions"] || leaf == ["achievements"]
    requires Plain(cfg.region) && Plain(realmSlug) && Plain(characterName)
    requires Plain(OrDefault(namespace, cfg.profileNamespace)) && Plain(OrDefault(locale, cfg.locale))
    ensures ParseUrl(ResourceUrl(CharacterParts(cfg, realmSlug, characterName, leaf, namespace, locale)))
      == Some(UrlParts(cfg.region, ["profile", "wow", "character", realmSlug, Lower(characterName)] + leaf,
                       OrDefault(namespace, cfg.profileNamespace), OrDefault(locale, cfg.locale)))
  {
    var parts := CharacterParts(cfg, realmSlug, characterName, leaf, namespace, locale);
    assert Encodable(parts) by {
      LowerKeepsPlain(characterName);
      forall s | s in parts.path
        ensures Plain(s)
      {
      }
    }
    ParseResourceUrl(parts);
  }

  /** The path of a character URL is the realm path, then the
      lower-cased name, then the sub-resource segments. */
  lemma CharacterPathLayout(cfg: Config, realmSlug: string, characterName: string, leaf: string,
                            namespace: Option<string>, locale: Option<string>)
    ensures var p := CharacterParts(cfg, realmSlug, characterName, [], namespace, locale);
      && PathPart(p) == BaseUrl(cfg.region) + "/" + Join(["profile", "wow", "character", realmSlug], '/')
                        + "/" + Lower(characterName)
      && PathPart(CharacterParts(cfg, realmSlug, characterName, [leaf], namespace, locale))
         == PathPart(p) + "/" + leaf
      && QueryPart(CharacterParts(cfg, realmSlug, characterName, [leaf], namespace, locale)) == QueryPart(p)
  {
    var realmPath := ["profile", "wow", "character", realmSlug];
    var path := realmPath + [Lower(characterName)];
    var p := CharacterParts(cfg, realmSlug, characterName, [], namespace, locale);
    var q := CharacterParts(cfg, realmSlug, characterName, [leaf], namespace, locale);
    assert p.path == path;
    assert q.path == path + [leaf];
    JoinSnoc(realmPath, Lower(characterName), '/');
    JoinSnoc(path, leaf, '/');
    assert Join(p.path, '/') == Join(realmPath, '/') + "/" + Lower(characterName);
    assert Join(q.path, '/') == Join(p.path, '/') + "/" + leaf;
  }

  /** The professions and achievements URLs of a character are its
      profile URL with one more path segment before the query. */
  lemma CharacterSubresourceUrls(cfg: Config, realmSlug: string, characterName: string,
                                 namespace: Option<string>, locale: Option<string>)
    ensures var p := CharacterParts(cfg, realmSlug, characterName, [], namespace, locale);
      && CharacterProfileUrl(cfg, realmSlug, characterName, namespace, locale) == PathPart(p) + "?" + QueryPart(p)
      && CharacterProfessionsUrl(cfg, realmSlug, characterName, namespace, locale)
         == PathPart(p) + "/professions" + "?" + QueryPart(p)
      && CharacterAchievementsUrl(cfg, realmSlug, characterName, namespace, locale)
         == PathPart(p) + "/achievements" + "?" + QueryPart(p)
  {
    CharacterPathLayout(cfg, realmSlug, characterName, "professions", namespace, locale);
    CharacterPathLayout(cfg, realmSlug, characterName, "achievements", namespace, locale);
  }

  /** With separator-free parts, the sub-resource URLs also read back as
      the profile's parts with one more path segment. */
  lemma ParseCharacterSubresourceUrls(cfg: Config, realmSlug: string, characterName: string,
                                      namespace: Option<string>, locale: Option<string>)
    requires Plain(cfg.region) && Plain(realmSlug) && Plain(characterName)
    requires Plain(OrDefault(namespace, cfg.profileNamespace)) && Plain(OrDefault(locale, cfg.locale))
    ensures var profile := ParseUrl(CharacterProfileUrl(cfg, realmSlug, characterName, namespace, locale));
      && profile.Some?
      && ParseUrl(CharacterProfessionsUrl(cfg, realmSlug, characterName, namespace, locale))
         == Some(profile.value.(path := profile.value.path + ["professions"]))
      && ParseUrl(CharacterAchievementsUrl(cfg, realmSlug, characterName, namespace, locale))
         == Some(profile.value.(path := profile.value.path + ["achievements"]))
  {
    var base := ["profile", "wow", "character", realmSlug, Lower(characterName)];
    ParseCharacterUrl(cfg, realmSlug, characterName, [], namespace, locale);
    ParseCharacterUrl(cfg, realmSlug, characterName, ["professions"], namespace, locale);
    ParseCharacterUrl(cfg, realmSlug, characterName, ["achievements"], namespace, locale);
    assert base + [] == base;
  }

  /** The profile URL depends on the character name only up to letter
      case: two names give the same URL exactly when they differ at most
      in case. */
  lemma CharacterProfileUrlIgnoresCase(cfg: Config, realmSlug: string, n1: string, n2: string,
                                       namespace: Option<string>, locale: Option<string>)
    ensures CharacterProfileUrl(cfg, realmSlug, n1, namespace, locale)
            == CharacterProfileUrl(cfg, realmSlug, n2, namespace, locale)
            <==> EqualIgnoringCase(n1, n2)
  {
    LowerEqualIff(n1, n2);
    CharacterPathLayout(cfg, realmSlug, n1, "", namespace, locale);
    CharacterPathLayout(cfg, realmSlug, n2, "", namespace, locale);
    var pre := BaseUrl(cfg.region) + "/" + Join(["profile", "wow", "character", realmSlug], '/') + "/";
    var post := "?" + QueryPart(CharacterParts(cfg, realmSlug, n1, [], namespace, locale));
    assert post == "?" + QueryPart(CharacterParts(cfg, realmSlug, n2, [], namespace, locale));
    var u1 := CharacterProfileUrl(cfg, realmSlug, n1, namespace, locale);
    var u2 := CharacterProfileUrl(cfg, realmSlug, n2, namespace, locale);
    assert u1 == pre + Lower(n1) + post;
    assert u2 == pre + Lower(n2) + post;
    if u1 == u2 {
      assert |Lower(n1)| == |Lower(n2)|;
      assert Lower(n1) == u1[|pre|..|pre| + |Lower(n1)|];
      assert Lower(n2) == u2[|pre|..|pre| + |Lower(n2)|];
    }
  }

}
