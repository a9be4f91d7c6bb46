/** Tenants and their API keys (app/organizations/models.py): the usage
    quotas, the unique-slug search run on save, the trial window, and API
    key issue and verification. Hashing, `slugify`, the random token and the
    clock are parameters. */
module Organizations {
  import opened Wrappers
  import opened Text

  // ---------------------------------------------------------------------------
  // Usage quotas

  /** The quota columns of an organization. */
  datatype Usage = Usage(
    botsQuota: int, botsUsed: int,
    documentsQuota: int, documentsUsed: int,
    apiCallsQuota: int, apiCallsUsed: int)

  /** The counters of a new organization. */
  const DefaultUsage: Usage := Usage(1, 0, 10, 0, 0, 0)

  predicate CanCreateBot(u: Usage) {
    u.botsUsed < u.botsQuota
  }

  predicate CanGenerateDocument(u: Usage) {
    u.documentsUsed < u.documentsQuota
  }

  /** A quota of 0 means unlimited API calls. */
  predicate CanUseApi(u: Usage) {
    u.apiCallsQuota == 0 || u.apiCallsUsed < u.apiCallsQuota
  }

  /** The counters after `increment_usage(usage_type)`; an unknown type
      changes nothing. */
  function Incremented(u: Usage, usageType: string): (r: Usage)
    ensures r.botsQuota == u.botsQuota && r.documentsQuota == u.documentsQuota && r.apiCallsQuota == u.apiCallsQuota
    ensures r.documentsUsed == u.documentsUsed + (if usageType == "document" then 1 else 0)
    ensures r.apiCallsUsed == u.apiCallsUsed + (if usageType == "api_call" then 1 else 0)
    ensures r.botsUsed == u.botsUsed + (if usageType == "bot" then 1 else 0)
  {
    if usageType == "document" then u.(documentsUsed := u.documentsUsed + 1)
    else if usageType == "api_call" then u.(apiCallsUsed := u.apiCallsUsed + 1)
    else if usageType == "bot" then u.(botsUsed := u.botsUsed + 1)
    else u
  }

  /** The counters after `reset_monthly_usage`. */
  function Reset(u: Usage): (r: Usage)
    ensures r.documentsUsed == 0 && r.apiCallsUsed == 0
    ensures r.(documentsUsed := u.documentsUsed, apiCallsUsed := u.apiCallsUsed) == u
  {
    u.(documentsUsed := 0, apiCallsUsed := 0)
  }

  /** `n` calls of `increment_usage(usageType)`. */
  function IncrementedTimes(u: Usage, usageType: string, n: nat): Usage
  {
    if n == 0 then u else Incremented(IncrementedTimes(u, usageType, n - 1), usageType)
  }

  lemma {:induction false} IncrementedTimesCounts(u: Usage, usageType: string, n: nat)
    ensures var r := IncrementedTimes(u, usageType, n);
      && r.botsQuota == u.botsQuota && r.documentsQuota == u.documentsQuota && r.apiCallsQuota == u.apiCallsQuota
      && r.documentsUsed == u.documentsUsed + (if usageType == "document" then n else 0)
      && r.apiCallsUsed == u.apiCallsUsed + (if usageType == "api_call" then n else 0)
      && r.botsUsed == u.botsUsed + (if usageType == "bot" then n else 0)
  {
    if n > 0 {
      IncrementedTimesCounts(u, usageType, n - 1);
    }
  }

  /** Documents can be generated exactly `documentsQuota - documentsUsed`
      more times; bots likewise. */
  lemma QuotaCountdown(u: Usage, n: nat)
    ensures CanGenerateDocument(IncrementedTimes(u, "document", n)) <==> u.documentsUsed + n < u.documentsQuota
    ensures CanCreateBot(IncrementedTimes(u, "bot", n)) <==> u.botsUsed + n < u.botsQuota
  {
    IncrementedTimesCounts(u, "document", n);
    IncrementedTimesCounts(u, "bot", n);
  }

  /** With a quota of 0 API use never runs out; otherwise it runs out after
      `apiCallsQuota - apiCallsUsed` more calls. */
  lemma ApiQuotaCountdown(u: Usage, n: nat)
    ensures u.apiCallsQuota == 0 ==> CanUseApi(IncrementedTimes(u, "api_call", n))
    ensures u.apiCallsQuota != 0 ==>
      (CanUseApi(IncrementedTimes(u, "api_call", n)) <==> u.apiCallsUsed + n < u.apiCallsQuota)
  {
    IncrementedTimesCounts(u, "api_call", n);
  }

  /** After a reset the monthly quotas are available again as long as they
      are positive, and the bot quota is as it was. */
  lemma ResetRestores(u: Usage)
    ensures CanGenerateDocument(Reset(u)) <==> u.documentsQuota > 0
    ensures CanUseApi(Reset(u)) <==> u.apiCallsQuota >= 0
    ensures CanCreateBot(Reset(u)) <==> CanCreateBot(u)
  {
  }

  // ---------------------------------------------------------------------------
  // Slugs

  /** The slug tried after `n` clashes: the base, then `base-1`, `base-2`, … */
  function Candidate(base: string, n: nat): (r: string)
    ensures n == 0 ==> r == base
    ensures n > 0 ==> |r| > |base| + 1 && r[..|base|] == base && r[|base|] == '-'
  {
    if n == 0 then base else base + "-" + NatToString(n)
  }

  /** Distinct clash counts give distinct slugs. */
  lemma CandidateInjective(base: string, m: nat, n: nat)
    requires Candidate(base, m) == Candidate(base, n)
    ensures m == n
  {
    if m > 0 && n > 0 {
      var cm, cn := Candidate(base, m), Candidate(base, n);
      assert cm[|base| + 1..] == NatToString(m);
      assert cn[|base| + 1..] == NatToString(n);
      NatToStringInjective(m, n);
    }
  }

  /** `n` is where the slug search stops: the first free candidate. */
  predicate FirstFree(base: string, taken: set<string>, n: nat) {
    Candidate(base, n) !in taken && forall k :: 0 <= k < n ==> Candidate(base, k) in taken
  }

  /** The search stops at most one place. */
  lemma FirstFreeUnique(base: string, taken: set<string>, m: nat, n: nat)
    requires FirstFree(base, taken, m) && FirstFree(base, taken, n)
    ensures m == n
  {
  }

  /** The candidates tried before the `n`-th. */
  function TriedBefore(base: string, n: nat): set<string>
  {
    if n == 0 then {} else TriedBefore(base, n - 1) + {Candidate(base, n - 1)}
  }

  lemma {:induction false} NotTriedYet(base: string, n: nat, m: nat)
    requires m <= n
    ensures Candidate(base, n) !in TriedBefore(base, m)
  {
    if m > 0 {
      NotTriedYet(base, n, m - 1);
      if Candidate(base, n) == Candidate(base, m - 1) {
        CandidateInjective(base, n, m - 1);
      }
    }
  }

  /** One clash of the slug search: the clashing candidate is new, so the
      set of taken slugs not yet tried shrinks. */
  lemma SlugSearchStep(base: string, taken: set<string>, n: nat)
    requires Candidate(base, n) in taken && TriedBefore(base, n) <= taken
    ensures TriedBefore(base, n + 1) <= taken
    ensures |taken - TriedBefore(base, n + 1)| < |taken - TriedBefore(base, n)|
  {
    NotTriedYet(base, n, n);
    assert taken - TriedBefore(base, n + 1) < taken - TriedBefore(base, n) by {
      assert Candidate(base, n) in taken - TriedBefore(base, n);
    }
  }

  /** The unique-slug loop of `save`: the first candidate not in `taken`.
      The loop ends because the candidates are distinct and `taken` is
      finite. */
  method FreeSlug(baseSlug: string, taken: set<string>) returns (slug: string)
    ensures exists n: nat :: slug == Candidate(baseSlug, n) && FirstFree(baseSlug, taken, n)
    ensures slug !in taken
  {
    slug := baseSlug;
    var counter := 1;
    while slug in taken
      invariant counter >= 1
      invariant slug == Candidate(baseSlug, counter - 1)
      invariant forall k :: 0 <= k < counter - 1 ==> Candidate(baseSlug, k) in taken
      invariant TriedBefore(baseSlug, counter - 1) <= taken
      decreases |taken - TriedBefore(baseSlug, counter - 1)|
    {
      SlugSearchStep(baseSlug, taken, counter - 1);
      slug := baseSlug + "-" + NatToString(counter);
      counter := counter + 1;
    }
    assert FirstFree(baseSlug, taken, counter - 1);
  }

  /** Trial window: open while `now` is before its end. */
  function TrialOpen(trialEndsAt: Option<int>, now: int): (r: bool)
    ensures trialEndsAt.None? ==> !r
  {
    match trialEndsAt
    case None => false
    case Some(end) => now < end
  }

  // ---------------------------------------------------------------------------
  // The organization record

  class Organization {
    var name: string
    var slug: string
    var botsQuota: int
    var botsUsed: int
    var documentsQuota: int
    var documentsUsed: int
    var apiCallsQuota: int
    var apiCallsUsed: int
    var trialEndsAt: Option<int>

    /** A new organization with the column defaults. */
    constructor(name: string, slug: string)
      ensures this.name == name && this.slug == slug
      ensures Counters() == DefaultUsage && trialEndsAt == None
    {
      this.name := name;
      this.slug := slug;
      botsQuota, botsUsed := 1, 0;
      documentsQuota, documentsUsed := 10, 0;
      apiCallsQuota, apiCallsUsed := 0, 0;
      trialEndsAt := None;
    }

    function Counters(): Usage
      reads this
    {
      Usage(botsQuota, botsUsed, documentsQuota, documentsUsed, apiCallsQuota, apiCallsUsed)
    }

    /** `is_trial` at time `now`. */
    function IsTrial(now: int): (r: bool)
      reads this
      ensures r <==> trialEndsAt.Some? && now < trialEndsAt.value
    {
      TrialOpen(trialEndsAt, now)
    }

    /** `save`: an empty slug is replaced by the first of `slugify(name)`,
        `slugify(name)-1`, `slugify(name)-2`, … that no organization in
        `taken` uses; a set slug is kept. */
    method Save(taken: set<string>, slugify: string -> string)
      modifies this
      ensures old(slug) != [] ==> slug == old(slug)
      ensures old(slug) == [] ==> exists n: nat :: slug == Candidate(slugify(name), n) && FirstFree(slugify(name), taken, n)
      ensures old(slug) == [] ==> slug !in taken
      ensures name == old(name) && trialEndsAt == old(trialEndsAt)
      ensures botsQuota == old(botsQuota) && botsUsed == old(botsUsed)
      ensures documentsQuota == old(documentsQuota) && documentsUsed == old(documentsUsed)
      ensures apiCallsQuota == old(apiCallsQuota) && apiCallsUsed == old(apiCallsUsed)
    {
      if slug != [] {
        return;
      }
      var baseSlug := slugify(name);
      slug := FreeSlug(baseSlug, taken);
      assert baseSlug == slugify(name);
    }

    /** `reset_monthly_usage`. */
    method ResetMonthlyUsage()
      modifies this
      ensures Counters() == Reset(old(Counters()))
      ensures name == old(name) && slug == old(slug) && trialEndsAt == old(trialEndsAt)
    {
      documentsUsed := 0;
      apiCallsUsed := 0;
    }

    /** `increment_usage`. */
    method IncrementUsage(usageType: string)
      modifies this
      ensures Counters() == Incremented(old(Counters()), usageType)
      ensures name == old(name) && slug == old(slug) && trialEndsAt == old(trialEndsAt)
    {
      if usageType == "document" {
        documentsUsed := documentsUsed + 1;
      } else if usageType == "api_call" {
        apiCallsUsed := apiCallsUsed + 1;
      } else if usageType == "bot" {
        botsUsed := botsUsed + 1;
      }
    }
  }

  // ---------------------------------------------------------------------------
  // API keys

  /** The number of leading characters of a raw key that is stored in clear. */
  const PrefixLength: nat := 8

  /** `raw_key[:8]`. */
  function KeyPrefix(rawKey: string): (r: string)
    ensures |r| == if |rawKey| < PrefixLength then |rawKey| else PrefixLength
    ensures r <= rawKey
  {
    if |rawKey| < PrefixLength then rawKey else rawKey[..PrefixLength]
  }

  /** Two raw keys of at least eight characters look up the same prefix
      exactly when they agree on their first eight characters. */
  lemma KeyPrefixAgrees(a: string, b: string)
    requires |a| >= PrefixLength && |b| >= PrefixLength
    ensures KeyPrefix(a) == KeyPrefix(b) <==> forall i :: 0 <= i < PrefixLength ==> a[i] == b[i]
  {
    if forall i :: 0 <= i < PrefixLength ==> a[i] == b[i] {
      assert KeyPrefix(a) == KeyPrefix(b);
    }
  }

  /** For raw keys of any length: a key shorter than eight characters is its
      own prefix, so it shares its prefix only with itself. */
  lemma KeyPrefixShort(a: string, b: string)
    ensures KeyPrefix(a) == KeyPrefix(b) <==>
      if |a| < PrefixLength || |b| < PrefixLength then a == b
      else a[..PrefixLength] == b[..PrefixLength]
  {
    if |a| < PrefixLength && KeyPrefix(a) == KeyPrefix(b) {
      assert |b| == |a|;
    }
    if |b| < PrefixLength && KeyPrefix(a) == KeyPrefix(b) {
      assert |a| == |b|;
    }
  }

  class APIKey {
    var organizationId: int
    var name: string
    var prefix: string
    var keyHash: string
    var permissions: map<string, bool>
    var lastUsedAt: Option<int>
    var usageCount: int
    var isActive: bool
    var expiresAt: Option<int>

    /** `generate_key`, with `rawKey` the fresh random token and `hash` the
        SHA-256 hex digest: the stored prefix and hash are those the
        verification of the same raw key looks up. */
    constructor Generate(organizationId: int, name: string, permissions: Option<map<string, bool>>,
                         rawKey: string, hash: string -> string)
      ensures this.organizationId == organizationId && this.name == name
      ensures Accepts(rawKey, hash)
      ensures this.permissions == if permissions.Some? then permissions.value else map[]
      ensures lastUsedAt == None && usageCount == 0 && isActive && expiresAt == None
    {
      this.organizationId := organizationId;
      this.name := name;
      prefix := KeyPrefix(rawKey);
      keyHash := hash(rawKey);
      this.permissions := if permissions.Some? then permissions.value else map[];
      lastUsedAt := None;
      usageCount := 0;
      isActive := true;
      expiresAt := None;
    }

    /** The lookup `verify_key` performs matches this key. */
    predicate Accepts(rawKey: string, hash: string -> string)
      reads this
    {
      prefix == KeyPrefix(rawKey) && keyHash == hash(rawKey) && isActive
    }

    predicate Expired(now: int)
      reads this
    {
      expiresAt.Some? && now > expiresAt.value
    }

    /** `has_permission`: empty permissions allow nothing, and an action not
        listed is refused. */
    function HasPermission(action: string): (r: bool)
      reads this
      ensures r ==> action in permissions && permissions[action]
      ensures permissions == map[] ==> !r
      ensures action in permissions && permissions[action] ==> r
    {
      if permissions == map[] then false
      else if action in permissions then permissions[action]
      else false
    }
  }

  /** No key object is listed twice, as no table row is. */
  predicate Distinct(keys: seq<APIKey>) {
    forall i, j :: 0 <= i < j < |keys| ==> keys[i] != keys[j]
  }

  /** The keys among `keys` that the lookup of `rawKey` matches. */
  function Matching(keys: seq<APIKey>, rawKey: string, hash: string -> string): (r: seq<APIKey>)
    reads set i | 0 <= i < |keys| :: keys[i]
    ensures forall j :: 0 <= j < |r| ==> r[j] in keys && r[j].Accepts(rawKey, hash)
    ensures forall i :: 0 <= i < |keys| && keys[i].Accepts(rawKey, hash) ==> keys[i] in r
    ensures Distinct(keys) ==> Distinct(r)
  {
    if keys == [] then []
    else
      var rest := Matching(keys[..|keys| - 1], rawKey, hash);
      var k := keys[|keys| - 1];
      assert keys == keys[..|keys| - 1] + [k];
      if k.Accepts(rawKey, hash) then rest + [k] else rest
  }

  /** `verify_key` against the stored keys `keys` at time `now`. No match
      gives `None`; more than one match is the `MultipleObjectsReturned`
      error of the lookup; an expired key gives `None` and is not touched;
      otherwise the key's use is recorded and it is returned. */
  method VerifyKey(keys: seq<APIKey>, rawKey: string, hash: string -> string, now: int)
    returns (r: Result<Option<APIKey>, string>)
    requires Distinct(keys)
    modifies set i | 0 <= i < |keys| :: keys[i]
    ensures var found := old(Matching(keys, rawKey, hash));
      && (|found| == 0 ==> r == Success(None))
      && (|found| > 1 ==> r.Failure?)
      && (|found| == 1 && old(found[0].Expired(now)) ==> r == Success(None))
      && (|found| == 1 && !old(found[0].Expired(now)) ==> r == Success(Some(found[0])))
    ensures r.Success? && r.value.Some? ==>
      var k := r.value.value;
      && k in keys && k.Accepts(rawKey, hash)
      && k.usageCount == old(k.usageCount) + 1 && k.lastUsedAt == Some(now)
      && k.prefix == old(k.prefix) && k.keyHash == old(k.keyHash) && k.isActive == old(k.isActive)
      && k.permissions == old(k.permissions) && k.expiresAt == old(k.expiresAt)
      && k.organizationId == old(k.organizationId) && k.name == old(k.name)
    ensures forall i :: 0 <= i < |keys| && !(r.Success? && r.value == Some(keys[i])) ==>
      unchanged(keys[i])
  {
    var found := Matching(keys, rawKey, hash);
    if |found| == 0 {
      return Success(None);
    }
    if |found| > 1 {
      return Failure("MultipleObjectsReturned");
    }
    var key := found[0];
    if key.expiresAt.Some? && now > key.expiresAt.value {
      return Success(None);
    }
    key.lastUsedAt := Some(now);
    key.usageCount := key.usageCount + 1;
    return Success(Some(key));
  }
}
