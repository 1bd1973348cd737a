/**
  The organisation part of `GithubRepoStep.initializeUI`: the choices offered
  (from the organisations cache, filled on demand by a fetch), and the
  organisation pre-selected as the default (the one named like the user).

  The cache is a sequential map from a user's cache key to the organisations
  fetched for it; the fetch is an oracle input, the list the GitHub call
  would return.
 */
module Organisations {
  import opened Common
  import opened GitAccounts
  import opened AccountResolution

  type OrgCache = map<string, seq<Organisation>>

  /** The value a cache lookup yields, the cache after it, and whether it fetched. */
  datatype Lookup = Lookup(choices: seq<Organisation>, cache: OrgCache, fetched: bool)

  /**
    `Cache.computeIfAbsent`: a key already present yields its stored list
    and leaves the cache alone; an absent key runs the fetch once and stores
    its result under that key.
   */
  function ComputeIfAbsent(cache: OrgCache, key: string, fetch: seq<Organisation>): (r: Lookup)
    ensures r.fetched <==> key !in cache
    ensures key in r.cache && r.cache[key] == r.choices
    ensures r.fetched ==> r.choices == fetch
    ensures !r.fetched ==> r.choices == cache[key] && r.cache == cache
    ensures r.cache.Keys == cache.Keys + {key}
    ensures forall k :: k in cache && k != key ==> r.cache[k] == cache[k]
  {
    if key in cache then Lookup(cache[key], cache, false)
    else Lookup(fetch, cache[key := fetch], true)
  }

  /**
    The organisation choices: empty, with the cache untouched, unless the
    facade holds a valid account; otherwise the cache entry for that
    account's cache key.
   */
  function OrganisationChoices(github: GitHubFacade, cache: OrgCache, fetch: seq<Organisation>): (r: Lookup)
    ensures !IsDetailsValid(github) ==> r.choices == [] && r.cache == cache && !r.fetched
    ensures IsDetailsValid(github) ==>
      var key := github.details.value.userCacheKey;
      && (key in cache ==> r.choices == cache[key] && r.cache == cache && !r.fetched)
      && (key !in cache ==> r.choices == fetch && r.cache == cache[key := fetch] && r.fetched)
  {
    if IsDetailsValid(github) then
      ComputeIfAbsent(cache, github.details.value.userCacheKey, fetch)
    else
      Lookup([], cache, false)
  }

  /** A second lookup of the same key never fetches and sees what the first one stored. */
  lemma SecondLookupHitsCache(cache: OrgCache, key: string, fetch1: seq<Organisation>, fetch2: seq<Organisation>)
    ensures var first := ComputeIfAbsent(cache, key, fetch1);
            var second := ComputeIfAbsent(first.cache, key, fetch2);
            !second.fetched && second.choices == first.choices && second.cache == first.cache
  {
  }

  /**
    Any number of lookups of one key, each with its own would-be fetch
    result: at most one fetch happens (the first lookup, when the key was
    absent), and every lookup sees the same list.
   */
  method LookupRepeatedly(cache: OrgCache, key: string, fetches: seq<seq<Organisation>>)
    returns (seen: seq<seq<Organisation>>, cache': OrgCache, fetchCount: nat)
    requires |fetches| > 0
    ensures |seen| == |fetches|
    ensures fetchCount == (if key in cache then 0 else 1)
    ensures forall i :: 0 <= i < |seen| ==> seen[i] == (if key in cache then cache[key] else fetches[0])
    ensures cache' == (if key in cache then cache else cache[key := fetches[0]])
  {
    seen := [];
    cache' := cache;
    fetchCount := 0;
    var i := 0;
    while i < |fetches|
      invariant 0 <= i <= |fetches|
      invariant |seen| == i
      invariant i == 0 ==> cache' == cache && fetchCount == 0
      invariant i > 0 ==> cache' == (if key in cache then cache else cache[key := fetches[0]])
      invariant i > 0 ==> fetchCount == (if key in cache then 0 else 1)
      invariant forall j :: 0 <= j < i ==> seen[j] == (if key in cache then cache[key] else fetches[0])
    {
      var r := ComputeIfAbsent(cache', key, fetches[i]);
      if r.fetched {
        fetchCount := fetchCount + 1;
      }
      seen := seen + [r.choices];
      cache' := r.cache;
      i := i + 1;
    }
  }

  /** `orgs[i]` is the first organisation in list order named exactly `user`. */
  predicate IsFirstNamed(orgs: seq<Organisation>, user: string, i: int) {
    && 0 <= i < |orgs|
    && orgs[i].name == Some(user)
    && forall j :: 0 <= j < i ==> orgs[j].name != Some(user)
  }

  /** The first organisation, in list order, named exactly `user`, if any. */
  function FirstNamed(orgs: seq<Organisation>, user: string): (r: Option<Organisation>)
    ensures r.Some? ==> exists i :: IsFirstNamed(orgs, user, i) && orgs[i] == r.value
    ensures r.None? ==> forall i :: 0 <= i < |orgs| ==> orgs[i].name != Some(user)
  {
    if |orgs| == 0 then None
    else if orgs[0].name == Some(user) then
      assert IsFirstNamed(orgs, user, 0);
      Some(orgs[0])
    else
      var r := FirstNamed(orgs[1..], user);
      if r.Some? then
        var i :| IsFirstNamed(orgs[1..], user, i) && orgs[1..][i] == r.value;
        assert IsFirstNamed(orgs, user, i + 1);
        r
      else
        r
  }

  /**
    The default organisation: none unless the user name is not blank, and
    then the first organisation named exactly like the user, if any.
   */
  function DefaultOrganisation(userName: Option<string>, orgs: seq<Organisation>): (r: Option<Organisation>)
    ensures r.Some? <==> IsNotBlank(userName) && exists i :: 0 <= i < |orgs| && orgs[i].name == userName
    ensures r.Some? ==> exists i :: IsFirstNamed(orgs, userName.value, i) && orgs[i] == r.value
  {
    if IsNotBlank(userName) then FirstNamed(orgs, userName.value) else None
  }

  /**
    The scan of `initializeUI` as written: walk the organisations in order
    and stop at the first whose name equals the user name.
   */
  method SelectDefault(userName: Option<string>, orgs: seq<Organisation>) returns (d: Option<Organisation>)
    ensures d == DefaultOrganisation(userName, orgs)
  {
    d := None;
    if IsNotBlank(userName) {
      var i := 0;
      while i < |orgs|
        invariant 0 <= i <= |orgs|
        invariant forall j :: 0 <= j < i ==> orgs[j].name != userName
      {
        if userName == orgs[i].name {
          d := Some(orgs[i]);
          assert IsFirstNamed(orgs, userName.value, i);
          FirstNamedIsUnique(orgs, userName.value);
          return;
        }
        i := i + 1;
      }
    }
  }

  /** There is only one first match. */
  lemma FirstNamedIsUnique(orgs: seq<Organisation>, user: string)
    ensures forall i, k :: IsFirstNamed(orgs, user, i) && IsFirstNamed(orgs, user, k) ==> i == k
  {
  }

  /** What `initializeUI` leaves behind: the choices, the default, and the cache. */
  datatype RepoStepUI = RepoStepUI(
    github: GitHubFacade,
    choices: seq<Organisation>,
    defaultOrganisation: Option<Organisation>,
    cache: OrgCache,
    fetched: bool)

  /**
    The account and organisation part of `initializeUI`: resolve the facade
    (line 71), look up the choices, and pick the default. The user name is
    read from the facade's account without a null check, so the resolved
    account must be present.
   */
  function InitializeUI(src: Sources, cache: OrgCache, fetch: seq<Organisation>): (r: RepoStepUI)
    requires CreateGithubFacade(src).facade.details.Some?
    ensures r.github == CreateGithubFacade(src).facade
    // the choices: empty without a valid account, the cache entry for its key otherwise
    ensures !IsDetailsValid(r.github) ==> r.choices == [] && r.cache == cache && !r.fetched
    ensures IsDetailsValid(r.github) ==>
      var key := r.github.details.value.userCacheKey;
      && (r.fetched <==> key !in cache)
      && (key in cache ==> r.choices == cache[key] && r.cache == cache)
      && (key !in cache ==> r.choices == fetch && r.cache == cache[key := fetch])
    // the default: the first choice named exactly like the (non-blank) user
    ensures var u := r.github.details.value.username;
      && (r.defaultOrganisation.Some? <==>
            IsNotBlank(u) && exists i :: 0 <= i < |r.choices| && r.choices[i].name == u)
      && (r.defaultOrganisation.Some? ==>
            exists i :: IsFirstNamed(r.choices, u.value, i) && r.choices[i] == r.defaultOrganisation.value)
  {
    var github := CreateGithubFacade(src).facade;
    var lookup := OrganisationChoices(github, cache, fetch);
    RepoStepUI(github, lookup.choices, DefaultOrganisation(github.details.value.username, lookup.choices),
               lookup.cache, lookup.fetched)
  }

  /** A name that starts with a visible char is not blank. */
  lemma VisibleStartIsNotBlank(s: string)
    requires |s| > 0 && !IsTrimmable(s[0])
    ensures IsNotBlank(Some(s))
  {
    assert TrimLeading(s) == s;
  }

  /**
    Examples: "alice" is picked for user "alice", nothing for "carol"; of two
    organisations with the same name, the one earlier in the list is picked.
   */
  lemma DefaultOrganisationExamples()
    ensures DefaultOrganisation(Some("alice"), [Organisation(Some("alice"), "a"), Organisation(Some("bravo-team"), "b")])
            == Some(Organisation(Some("alice"), "a"))
    ensures DefaultOrganisation(Some("carol"), [Organisation(Some("alice"), "a"), Organisation(Some("bravo-team"), "b")])
            == None
    ensures DefaultOrganisation(Some("alice"), [Organisation(Some("alice"), "first"), Organisation(Some("alice"), "second")])
            == Some(Organisation(Some("alice"), "first"))
  {
    VisibleStartIsNotBlank("alice");
    VisibleStartIsNotBlank("carol");
    var pair := [Organisation(Some("alice"), "a"), Organisation(Some("bravo-team"), "b")];
    assert FirstNamed(pair, "carol") == None by {
      assert pair[1..] == [pair[1]];
      assert [pair[1]][1..] == [];
    }
  }

}
