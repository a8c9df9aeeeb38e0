/** The category filter of src/perfetto-port.cc: which categories a tracing session's
    configuration enables, given the category's name and its (nullable) tags. */
module Filter {
  import opened Common

  type Tags = t: seq<Option<string>> | |t| == MAX_CATEGORY_TAGS
    witness [None, None, None, None]

  /** The four repeated string fields of a track event configuration that the filter reads. */
  datatype Config = Config(
    enabledCategories: seq<string>,
    enabledTags: seq<string>,
    disabledCategories: seq<string>,
    disabledTags: seq<string>)

  datatype MatchType = Exact | Pattern

  // ---------------------------------------------------------------- the code

  /** The index of the first '*', or the length of the pattern when it has none. */
  function FindStar(pattern: string): (i: nat)
    ensures i <= |pattern| && '*' !in pattern[..i]
    ensures i < |pattern| ==> pattern[i] == '*'
    ensures i < |pattern| <==> '*' in pattern
  {
    if pattern == "" then 0
    else if pattern[0] == '*' then 0
    else 1 + FindStar(pattern[1..])
  }

  /** A prefix of at most n characters, as std::string::substr(0, n). */
  function Substr(s: string, n: nat): string {
    if n <= |s| then s[..n] else s
  }

  predicate NameMatchesPattern(pattern: string, name: string, matchType: MatchType) {
    var i := FindStar(pattern);
    if i < |pattern| then
      matchType == Pattern && Substr(name, i) == Substr(pattern, i)
    else
      name == pattern
  }

  predicate NameMatchesPatternList(patterns: seq<string>, name: string, matchType: MatchType) {
    patterns != [] &&
    (NameMatchesPattern(patterns[0], name, matchType) ||
     NameMatchesPatternList(patterns[1..], name, matchType))
  }

  predicate HasMatchingTag(tags: seq<Option<string>>, matcher: string -> bool) {
    tags != [] &&
    ((tags[0].Some? && matcher(tags[0].value)) || HasMatchingTag(tags[1..], matcher))
  }

  predicate DisabledTag(config: Config, tag: string, matchType: MatchType) {
    if config.disabledTags != [] then
      NameMatchesPatternList(config.disabledTags, tag, matchType)
    else
      NameMatchesPattern("slow", tag, matchType) || NameMatchesPattern("debug", tag, matchType)
  }

  /** One pass of the loop over match types: a verdict, or None to go on. */
  function Pass(name: string, tags: Tags, config: Config, matchType: MatchType): Option<bool> {
    if NameMatchesPatternList(config.enabledCategories, name, matchType) then Some(true)
    else if HasMatchingTag(tags, tag => NameMatchesPatternList(config.enabledTags, tag, matchType)) then Some(true)
    else if NameMatchesPatternList(config.disabledCategories, name, matchType) then Some(false)
    else if HasMatchingTag(tags, tag => DisabledTag(config, tag, matchType)) then Some(false)
    else None
  }

  predicate IsCategoryEnabled(name: string, tags: Tags, config: Config) {
    match Pass(name, tags, config, Exact)
    case Some(verdict) => verdict
    case None =>
      match Pass(name, tags, config, Pattern)
      case Some(verdict) => verdict
      case None => true
  }

  /** Whether OnSetup gives a category with this name and these tags the session's bit; the
      configuration is None if it did not parse. */
  predicate Wanted(name: Option<string>, tags: Tags, parsed: Option<Config>) {
    parsed.Some? && name.Some? && IsCategoryEnabled(name.value, tags, parsed.value)
  }

  // ---------------------------------------------------------------- wildcards

  /** Shell-style matching in which every '*' stands for any string. */
  predicate Glob(pattern: string, name: string)
    decreases |pattern| + |name|
  {
    if pattern == "" then name == ""
    else if pattern[0] == '*' then
      Glob(pattern[1..], name) || (name != "" && Glob(pattern, name[1..]))
    else name != "" && name[0] == pattern[0] && Glob(pattern[1..], name[1..])
  }

  ghost predicate OnlyStars(s: string) {
    forall i :: 0 <= i < |s| ==> s[i] == '*'
  }

  /** Nothing but stars follows the first star. */
  ghost predicate TrailingStar(pattern: string) {
    OnlyStars(pattern[FindStar(pattern)..])
  }

  lemma {:induction false} GlobOfStars(pattern: string, name: string)
    requires OnlyStars(pattern) && pattern != ""
    ensures Glob(pattern, name)
    decreases |pattern| + |name|
  {
    if name != "" {
      GlobOfStars(pattern, name[1..]);
    } else if |pattern| > 1 {
      GlobOfStars(pattern[1..], name);
    }
  }

  lemma {:induction false} GlobOfEmptyName(pattern: string)
    ensures Glob(pattern, "") <==> OnlyStars(pattern)
  {
    if pattern != "" {
      GlobOfEmptyName(pattern[1..]);
      assert pattern == [pattern[0]] + pattern[1..];
      if Glob(pattern, "") {
        assert OnlyStars(pattern);
      }
    }
  }

  /** The part of a glob before its first star matches literally. */
  lemma {:induction false} GlobStem(pattern: string, name: string)
    ensures var i := FindStar(pattern);
            Glob(pattern, name) <==>
            i <= |name| && name[..i] == pattern[..i] && Glob(pattern[i..], name[i..])
  {
    var i := FindStar(pattern);
    if i == 0 {
      assert pattern[i..] == pattern && name[i..] == name;
    } else if name != "" {
      GlobStem(pattern[1..], name[1..]);
      assert pattern[1..][i-1..] == pattern[i..];
      if i <= |name| {
        assert name[1..][i-1..] == name[i..];
        assert name[..i] == [name[0]] + name[1..][..i-1];
        assert pattern[..i] == [pattern[0]] + pattern[1..][..i-1];
        if name[..i] == pattern[..i] {
          assert name[0] == name[..i][0] == pattern[..i][0] == pattern[0];
          assert name[1..][..i-1] == name[..i][1..] == pattern[..i][1..] == pattern[1..][..i-1];
        }
      }
    }
  }

  lemma SubstrIsPrefix(pattern: string, name: string, i: nat)
    requires i <= |pattern|
    ensures Substr(name, i) == Substr(pattern, i) <==> i <= |name| && name[..i] == pattern[..i]
  {
    if Substr(name, i) == Substr(pattern, i) {
      assert |Substr(name, i)| == i;
    }
  }

  /** Pattern mode accepts everything the glob accepts, for every pattern. */
  lemma GlobImpliesMatch(pattern: string, name: string)
    requires Glob(pattern, name)
    ensures NameMatchesPattern(pattern, name, Pattern)
  {
    GlobStem(pattern, name);
    var i := FindStar(pattern);
    SubstrIsPrefix(pattern, name, i);
    if i == |pattern| {
      assert name[i..] == "" && name == name[..i] + name[i..];
      assert pattern == pattern[..i];
    }
  }

  /** On the documented patterns, with the wildcard at the end, pattern mode is the glob. */
  lemma MatchIsGlob(pattern: string, name: string)
    requires TrailingStar(pattern)
    ensures NameMatchesPattern(pattern, name, Pattern) <==> Glob(pattern, name)
  {
    if NameMatchesPattern(pattern, name, Pattern) {
      var i := FindStar(pattern);
      SubstrIsPrefix(pattern, name, i);
      GlobStem(pattern, name);
      if i < |pattern| {
        GlobOfStars(pattern[i..], name[i..]);
      } else {
        assert name[..i] == name && pattern[..i] == pattern;
        assert pattern[i..] == "" && name[i..] == "";
      }
    } else if Glob(pattern, name) {
      GlobImpliesMatch(pattern, name);
    }
  }

  /** The debug-only check on the star's position marks exactly the patterns the code handles:
      any other pattern matches some name that the glob rejects. */
  lemma MatchIsGlobExactlyWhenTrailing(pattern: string)
    ensures (forall name :: NameMatchesPattern(pattern, name, Pattern) <==> Glob(pattern, name))
            <==> TrailingStar(pattern)
  {
    if TrailingStar(pattern) {
      forall name ensures NameMatchesPattern(pattern, name, Pattern) <==> Glob(pattern, name) {
        MatchIsGlob(pattern, name);
      }
    } else {
      var i := FindStar(pattern);
      var stem := pattern[..i];
      SubstrIsPrefix(pattern, stem, i);
      GlobStem(pattern, stem);
      GlobOfEmptyName(pattern[i..]);
      assert stem[i..] == "";
      assert NameMatchesPattern(pattern, stem, Pattern) && !Glob(pattern, stem);
    }
  }

  /** Exact mode ignores wildcard patterns altogether. */
  lemma ExactMatch(pattern: string, name: string)
    ensures NameMatchesPattern(pattern, name, Exact) <==> '*' !in pattern && name == pattern
  {
  }

  // ---------------------------------------------------------------- the rules

  /** The names a pattern list is held against: the category itself, or its non-null tags. */
  ghost predicate Tagged(tags: Tags, tag: string) {
    Some(tag) in tags
  }

  /** Some wildcard-free pattern of the list is one of the subjects. */
  ghost predicate Names(patterns: seq<string>, subject: string) {
    subject in patterns && '*' !in subject
  }

  /** Some wildcard pattern of the list covers the subject. */
  ghost predicate Covers(patterns: seq<string>, subject: string) {
    exists p :: p in patterns && '*' in p && FindStar(p) <= |subject|
      && subject[..FindStar(p)] == p[..FindStar(p)]
  }

  ghost predicate ExactlyEnabled(name: string, tags: Tags, config: Config) {
    Names(config.enabledCategories, name) ||
    exists tag :: Tagged(tags, tag) && Names(config.enabledTags, tag)
  }

  /** "slow" and "debug" are disabled by name as long as no disabled tag is configured. */
  ghost function DisabledTags(config: Config): seq<string> {
    if config.disabledTags == [] then ["slow", "debug"] else config.disabledTags
  }

  ghost predicate ExactlyDisabled(name: string, tags: Tags, config: Config) {
    Names(config.disabledCategories, name) ||
    exists tag :: Tagged(tags, tag) && Names(DisabledTags(config), tag)
  }

  ghost predicate BroadlyEnabled(name: string, tags: Tags, config: Config) {
    Covers(config.enabledCategories, name) ||
    exists tag :: Tagged(tags, tag) && Covers(config.enabledTags, tag)
  }

  ghost predicate BroadlyDisabled(name: string, tags: Tags, config: Config) {
    Covers(config.disabledCategories, name) ||
    exists tag :: Tagged(tags, tag) && Covers(DisabledTags(config), tag)
  }

  /** The most specific rule wins; at equal specificity enabling wins; by default, enabled. */
  ghost predicate MostSpecificRule(name: string, tags: Tags, config: Config) {
    if ExactlyEnabled(name, tags, config) then true
    else if ExactlyDisabled(name, tags, config) then false
    else if BroadlyEnabled(name, tags, config) then true
    else !BroadlyDisabled(name, tags, config)
  }

  lemma {:induction false} ListMatches(patterns: seq<string>, name: string, matchType: MatchType)
    ensures NameMatchesPatternList(patterns, name, matchType) <==>
            Names(patterns, name) || (matchType == Pattern && Covers(patterns, name))
  {
    if patterns != [] {
      var p, rest := patterns[0], patterns[1..];
      ListMatches(rest, name, matchType);
      assert patterns == [p] + rest;
      SubstrIsPrefix(p, name, FindStar(p));
      if Covers(patterns, name) {
        var q :| q in patterns && '*' in q && FindStar(q) <= |name| && name[..FindStar(q)] == q[..FindStar(q)];
        assert q == p || q in rest;
      }
      if Covers(rest, name) {
        var q :| q in rest && '*' in q && FindStar(q) <= |name| && name[..FindStar(q)] == q[..FindStar(q)];
        assert q in patterns;
      }
    }
  }

  lemma {:induction false} TagMatches(tags: seq<Option<string>>, matcher: string -> bool)
    ensures HasMatchingTag(tags, matcher) <==> exists tag :: Some(tag) in tags && matcher(tag)
  {
    if tags != [] {
      TagMatches(tags[1..], matcher);
      assert tags == [tags[0]] + tags[1..];
      if tag :| Some(tag) in tags && matcher(tag) {
        assert tags[0] == Some(tag) || Some(tag) in tags[1..];
      }
      if tags[0].Some? && matcher(tags[0].value) {
        assert Some(tags[0].value) in tags;
      }
    }
  }

  lemma DisabledTagMatches(config: Config, tag: string, matchType: MatchType)
    ensures DisabledTag(config, tag, matchType) <==>
            Names(DisabledTags(config), tag) || (matchType == Pattern && Covers(DisabledTags(config), tag))
  {
    ListMatches(config.disabledTags, tag, matchType);
    if config.disabledTags == [] {
      var defaults := DisabledTags(config);
      assert '*' !in defaults[0] && '*' !in defaults[1];
      ExactMatch(defaults[0], tag);
      ExactMatch(defaults[1], tag);
    }
  }

  /** One pass over the four rules, in terms of the declarative rules. The second pass tests
      the wildcard-free patterns again. */
  lemma PassMeaning(name: string, tags: Tags, config: Config, matchType: MatchType)
    ensures var wild := matchType == Pattern;
            Pass(name, tags, config, matchType) ==
            if ExactlyEnabled(name, tags, config) || (wild && BroadlyEnabled(name, tags, config)) then Some(true)
            else if ExactlyDisabled(name, tags, config) || (wild && BroadlyDisabled(name, tags, config)) then
              Some(false)
            else None
  {
    ListMatches(config.enabledCategories, name, matchType);
    ListMatches(config.disabledCategories, name, matchType);
    var enabling := (tag: string) => NameMatchesPatternList(config.enabledTags, tag, matchType);
    var disabling := (tag: string) => DisabledTag(config, tag, matchType);
    TagMatches(tags, enabling);
    TagMatches(tags, disabling);
    forall tag
      ensures enabling(tag) <==>
              Names(config.enabledTags, tag) || (matchType == Pattern && Covers(config.enabledTags, tag))
      ensures disabling(tag) <==>
              Names(DisabledTags(config), tag) || (matchType == Pattern && Covers(DisabledTags(config), tag))
    {
      ListMatches(config.enabledTags, tag, matchType);
      DisabledTagMatches(config, tag, matchType);
    }
    assert HasMatchingTag(tags, enabling) <==>
      exists tag :: Tagged(tags, tag)
        && (Names(config.enabledTags, tag) || (matchType == Pattern && Covers(config.enabledTags, tag)));
    assert HasMatchingTag(tags, disabling) <==>
      exists tag :: Tagged(tags, tag)
        && (Names(DisabledTags(config), tag) || (matchType == Pattern && Covers(DisabledTags(config), tag)));
  }

  /** The two-pass decision is "most specific rule wins", for every input. */
  lemma FilterRefinement(name: string, tags: Tags, config: Config)
    ensures IsCategoryEnabled(name, tags, config) <==> MostSpecificRule(name, tags, config)
  {
    PassMeaning(name, tags, config, Exact);
    PassMeaning(name, tags, config, Pattern);
  }

  // ---------------------------------------------------------------- algebra

  ghost predicate Subset(a: seq<string>, b: seq<string>) {
    forall p :: p in a ==> p in b
  }

  /** b enables at least what a does and disables at most what a does. The lists of disabled
      tags are comparable only when both, or neither, stand for the defaults. */
  ghost predicate MorePermissive(a: Config, b: Config) {
    && Subset(a.enabledCategories, b.enabledCategories)
    && Subset(a.enabledTags, b.enabledTags)
    && Subset(b.disabledCategories, a.disabledCategories)
    && Subset(b.disabledTags, a.disabledTags)
    && (b.disabledTags == [] ==> a.disabledTags == [])
  }

  lemma CoversMonotone(a: seq<string>, b: seq<string>, subject: string)
    requires Subset(a, b) && Covers(a, subject)
    ensures Covers(b, subject)
  {
    var p :| p in a && '*' in p && FindStar(p) <= |subject| && subject[..FindStar(p)] == p[..FindStar(p)];
    assert p in b;
  }

  /** Adding enabling patterns never disables a category, and adding disabling patterns never
      enables one (to a non-empty list, in the case of tags). Tags may be reordered, repeated
      and padded with nulls freely. */
  lemma FilterMonotone(name: string, tags: Tags, tags': Tags, a: Config, b: Config)
    requires MorePermissive(a, b)
    requires forall tag :: Tagged(tags, tag) <==> Tagged(tags', tag)
    ensures IsCategoryEnabled(name, tags, a) ==> IsCategoryEnabled(name, tags', b)
  {
    FilterRefinement(name, tags, a);
    FilterRefinement(name, tags', b);
    assert Subset(DisabledTags(b), DisabledTags(a));
    forall subject
      ensures Covers(a.enabledCategories, subject) ==> Covers(b.enabledCategories, subject)
      ensures Covers(a.enabledTags, subject) ==> Covers(b.enabledTags, subject)
      ensures Covers(b.disabledCategories, subject) ==> Covers(a.disabledCategories, subject)
      ensures Covers(DisabledTags(b), subject) ==> Covers(DisabledTags(a), subject)
    {
      if Covers(a.enabledCategories, subject) { CoversMonotone(a.enabledCategories, b.enabledCategories, subject); }
      if Covers(a.enabledTags, subject) { CoversMonotone(a.enabledTags, b.enabledTags, subject); }
      if Covers(b.disabledCategories, subject) { CoversMonotone(b.disabledCategories, a.disabledCategories, subject); }
      if Covers(DisabledTags(b), subject) { CoversMonotone(DisabledTags(b), DisabledTags(a), subject); }
    }
  }

  /** The verdict depends only on the sets of patterns and of non-null tags. */
  lemma FilterDependsOnSets(name: string, tags: Tags, tags': Tags, a: Config, b: Config)
    requires forall tag :: Tagged(tags, tag) <==> Tagged(tags', tag)
    requires forall p :: p in a.enabledCategories <==> p in b.enabledCategories
    requires forall p :: p in a.enabledTags <==> p in b.enabledTags
    requires forall p :: p in a.disabledCategories <==> p in b.disabledCategories
    requires forall p :: p in a.disabledTags <==> p in b.disabledTags
    ensures IsCategoryEnabled(name, tags, a) <==> IsCategoryEnabled(name, tags', b)
  {
    assert a.disabledTags == [] <==> b.disabledTags == [] by {
      if a.disabledTags != [] { assert a.disabledTags[0] in b.disabledTags; }
      if b.disabledTags != [] { assert b.disabledTags[0] in a.disabledTags; }
    }
    FilterMonotone(name, tags, tags', a, b);
    FilterMonotone(name, tags', tags, b, a);
  }

  /** The first disabled tags replace the defaults, so configuring them can enable a category.
      This happens exactly to a category that only its "slow" or "debug" tag disabled. */
  lemma FirstDisabledTagsEnable(name: string, tags: Tags, config: Config, added: seq<string>)
    requires config.disabledTags == [] && added != []
    ensures var config' := config.(disabledTags := added);
      !IsCategoryEnabled(name, tags, config) && IsCategoryEnabled(name, tags, config') <==>
        && (Tagged(tags, "slow") || Tagged(tags, "debug"))
        && !ExactlyEnabled(name, tags, config)
        && !ExactlyDisabled(name, tags, config')
        && (BroadlyEnabled(name, tags, config) || !BroadlyDisabled(name, tags, config'))
  {
    var config' := config.(disabledTags := added);
    FilterRefinement(name, tags, config);
    FilterRefinement(name, tags, config');
    var defaults := DisabledTags(config);
    assert '*' !in defaults[0] && '*' !in defaults[1];
    assert Names(defaults, "slow") && Names(defaults, "debug");
    forall tag ensures !Covers(defaults, tag) {
    }
  }

  const SLOW: Tags := [Some("slow"), None, None, None]

  lemma DefaultsDisableSlow()
    ensures !IsCategoryEnabled("gfx", SLOW, Config([], [], [], []))
  {
    var config := Config([], [], [], []);
    FilterRefinement("gfx", SLOW, config);
    assert SLOW[0] == Some("slow") && '*' !in DisabledTags(config)[0];
    assert Tagged(SLOW, "slow") && Names(DisabledTags(config), "slow");
  }

  lemma VerboseEnablesSlow()
    ensures IsCategoryEnabled("gfx", SLOW, Config([], [], [], ["verbose"]))
  {
    var config := Config([], [], [], ["verbose"]);
    FilterRefinement("gfx", SLOW, config);
    var p := config.disabledTags[0];
    assert '*' !in p;
    forall tag | Tagged(SLOW, tag) ensures !Names(config.disabledTags, tag) && !Covers(config.disabledTags, tag) {
      assert tag[0] != p[0];
    }
  }

  /** A concrete case: a "slow" category is off by default and on once "verbose" is disabled. */
  lemma DisablingATagCanEnable()
    ensures !IsCategoryEnabled("gfx", SLOW, Config([], [], [], []))
    ensures IsCategoryEnabled("gfx", SLOW, Config([], [], [], ["verbose"]))
  {
    DefaultsDisableSlow();
    VerboseEnablesSlow();
  }
}
