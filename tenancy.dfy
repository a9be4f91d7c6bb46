/** Tenant resolution (app/organizations/middleware.py): which organization a
    request belongs to, and the per-tenant filter applied to querysets. The
    ORM lookups are finite maps from the looked-up value to the
    organization. */
module Tenancy {
  import opened Wrappers
  import opened Text

  /** An organization, by its primary key. */
  type OrgId = int

  /** The rows `Organization.objects.get(id=…)` and `get(slug=…)` find. */
  datatype Directory = Directory(byId: map<string, OrgId>, bySlug: map<string, OrgId>)

  /** The authenticated user, as far as the middleware looks at it: each
      attribute is absent (`None`) or present with a possibly null value. */
  datatype User = User(
    isAuthenticated: bool,
    currentOrganization: Option<Option<OrgId>>,
    telegramOrganization: Option<Option<OrgId>>)

  datatype Request = Request(
    organizationHeader: Option<string>,
    host: string,
    user: Option<User>)

  /** Subdomains that never name a tenant. */
  const ReservedSubdomains: set<string> := {"www", "api", "admin"}

  // ---------------------------------------------------------------------------
  // Host parsing

  /** The number of occurrences of `c` in `s`. */
  function Count(s: string, c: char): nat
  {
    if s == [] then 0 else (if s[0] == c then 1 else 0) + Count(s[1..], c)
  }

  /** The part of `s` before the first `c` (all of `s` when there is none). */
  function UpTo(s: string, c: char): (r: string)
    ensures r <= s
    ensures c !in r
    ensures |r| < |s| ==> s[|r|] == c
  {
    if s == [] || s[0] == c then [] else [s[0]] + UpTo(s[1..], c)
  }

  lemma {:induction false} SplitFromOneCharHead(s: string, c: char, piece: string)
    ensures SplitFrom(s, [c], piece)[0] == piece + UpTo(s, c)
    decreases |s|
  {
    if |s| >= 1 {
      if s[..1] == [c] {
        assert s[0] == c;
        assert SplitFrom(s, [c], piece) == [piece] + SplitFrom(s[1..], [c], []);
      } else {
        assert s[0] != c by { assert s[..1] == [s[0]]; }
        assert SplitFrom(s, [c], piece) == SplitFrom(s[1..], [c], piece + [s[0]]);
        SplitFromOneCharHead(s[1..], c, piece + [s[0]]);
        assert piece + [s[0]] + UpTo(s[1..], c) == piece + UpTo(s, c);
      }
    }
  }

  lemma {:induction false} SplitFromOneCharCount(s: string, c: char, piece: string)
    ensures |SplitFrom(s, [c], piece)| == Count(s, c) + 1
    decreases |s|
  {
    if |s| >= 1 {
      if s[..1] == [c] {
        assert s[0] == c;
        assert SplitFrom(s, [c], piece) == [piece] + SplitFrom(s[1..], [c], []);
        SplitFromOneCharCount(s[1..], c, []);
      } else {
        assert s[0] != c by { assert s[..1] == [s[0]]; }
        assert SplitFrom(s, [c], piece) == SplitFrom(s[1..], [c], piece + [s[0]]);
        SplitFromOneCharCount(s[1..], c, piece + [s[0]]);
      }
    }
  }

  /** `s.split(c)` starts with the part before the first `c` and has one
      piece more than `s` has occurrences of `c`. */
  lemma SplitOneChar(s: string, c: char)
    ensures Split(s, [c])[0] == UpTo(s, c)
    ensures |Split(s, [c])| == Count(s, c) + 1
  {
    SplitFromOneCharHead(s, c, []);
    SplitFromOneCharCount(s, c, []);
  }

  /** `request.get_host().split(':')[0]`. */
  function HostName(host: string): string {
    Split(host, ":")[0]
  }

  /** The subdomain label, when the host name has more than two labels. */
  function Subdomain(host: string): Option<string> {
    var parts := Split(HostName(host), ".");
    if |parts| > 2 then Some(parts[0]) else None
  }

  /** The host name is the host cut at its first ':'; a subdomain exists
      exactly when the host name has at least two dots, and then it is the
      label before the first one. */
  lemma HostParsing(host: string)
    ensures HostName(host) == UpTo(host, ':')
    ensures Subdomain(host).Some? <==> Count(UpTo(host, ':'), '.') >= 2
    ensures Subdomain(host).Some? ==> Subdomain(host).value == UpTo(UpTo(host, ':'), '.')
  {
    SplitOneChar(host, ':');
    SplitOneChar(HostName(host), '.');
  }

  // ---------------------------------------------------------------------------
  // get_organization_from_request

  /** The organization named by a non-empty `X-Organization-ID` header, if
      it exists. */
  function FromHeader(req: Request, dir: Directory): Option<OrgId> {
    match req.organizationHeader
    case Some(id) => if id != [] && id in dir.byId then Some(dir.byId[id]) else None
    case None => None
  }

  /** The organization whose slug is the subdomain, unless it is reserved. */
  function FromSubdomain(req: Request, dir: Directory): Option<OrgId> {
    match Subdomain(req.host)
    case Some(sub) => if sub !in ReservedSubdomains && sub in dir.bySlug then Some(dir.bySlug[sub]) else None
    case None => None
  }

  /** The authenticated user's `current_organization`, else its Telegram
      profile's organization. */
  function FromUser(user: Option<User>): Option<OrgId> {
    match user
    case None => None
    case Some(u) =>
      if !u.isAuthenticated then None
      else if u.currentOrganization.Some? then u.currentOrganization.value
      else if u.telegramOrganization.Some? then u.telegramOrganization.value
      else None
  }

  /** `get_organization_from_request`. */
  function OrganizationFromRequest(req: Request, dir: Directory): (r: Option<OrgId>)
    ensures r.Some? ==> FromHeader(req, dir) == r || FromSubdomain(req, dir) == r || FromUser(req.user) == r
  {
    if FromHeader(req, dir).Some? then FromHeader(req, dir)
    else if FromSubdomain(req, dir).Some? then FromSubdomain(req, dir)
    else FromUser(req.user)
  }

  /** Header, then subdomain, then user: each source is consulted only when
      the ones before it resolve to nothing. */
  lemma ResolutionPriority(req: Request, dir: Directory)
    ensures var r := OrganizationFromRequest(req, dir);
      && (FromHeader(req, dir).Some? ==> r == FromHeader(req, dir))
      && (FromHeader(req, dir).None? && FromSubdomain(req, dir).Some? ==> r == FromSubdomain(req, dir))
      && (FromHeader(req, dir).None? && FromSubdomain(req, dir).None? ==> r == FromUser(req.user))
  {
  }

  /** A header naming an existing organization wins whatever the host and
      the user; one naming no organization is as if it were absent. */
  lemma HeaderWins(req: Request, dir: Directory, host: string, user: Option<User>)
    requires req.organizationHeader.Some? && req.organizationHeader.value in dir.byId
    requires req.organizationHeader.value != []
    ensures OrganizationFromRequest(req.(host := host, user := user), dir)
         == Some(dir.byId[req.organizationHeader.value])
  {
  }

  lemma UnknownHeaderFallsThrough(req: Request, dir: Directory)
    requires req.organizationHeader.Some? && req.organizationHeader.value !in dir.byId
    ensures OrganizationFromRequest(req, dir) == OrganizationFromRequest(req.(organizationHeader := None), dir)
  {
  }

  /** A reserved subdomain is never looked up: the slug table does not
      matter. */
  lemma ReservedNeverLookedUp(req: Request, dir: Directory, slugs: map<string, OrgId>)
    requires Subdomain(req.host).Some? && Subdomain(req.host).value in ReservedSubdomains
    ensures OrganizationFromRequest(req, dir) == OrganizationFromRequest(req, dir.(bySlug := slugs))
  {
  }

  /** Without a subdomain the slug table does not matter either. */
  lemma TwoLabelHostIgnoresSlugs(req: Request, dir: Directory, slugs: map<string, OrgId>)
    requires Count(UpTo(req.host, ':'), '.') < 2
    ensures OrganizationFromRequest(req, dir) == OrganizationFromRequest(req, dir.(bySlug := slugs))
  {
    HostParsing(req.host);
  }

  // ---------------------------------------------------------------------------
  // TenantQuerySetMixin

  /** A row of a tenant-owned table. */
  datatype Row = Row(id: int, organization: OrgId)

  /** `queryset.filter(organization=organization)`. */
  function OwnedBy(rows: seq<Row>, org: OrgId): seq<Row>
  {
    if rows == [] then []
    else
      var rest := OwnedBy(rows[..|rows| - 1], org);
      var row := rows[|rows| - 1];
      if row.organization == org then rest + [row] else rest
  }

  /** `TenantQuerySetMixin.get_queryset`. */
  function TenantQueryset(rows: seq<Row>, organization: Option<OrgId>, modelHasOrganization: bool): seq<Row>
  {
    if organization.Some? && modelHasOrganization then OwnedBy(rows, organization.value) else rows
  }

  /** The filter keeps each row of the tenant as often as it occurs and no
      other row. */
  lemma {:induction false} OwnedByCounts(rows: seq<Row>, org: OrgId)
    ensures forall row: Row :: multiset(OwnedBy(rows, org))[row] == if row.organization == org then multiset(rows)[row] else 0
  {
    if rows != [] {
      var init := rows[..|rows| - 1];
      var last := rows[|rows| - 1];
      OwnedByCounts(init, org);
      assert rows == init + [last];
      assert multiset(rows) == multiset(init) + multiset{last};
    }
  }

  /** The filter keeps the rows in their original order: filtering a
      concatenation filters each part and concatenates the results. */
  lemma {:induction false} OwnedByAppend(a: seq<Row>, b: seq<Row>, org: OrgId)
    ensures OwnedBy(a + b, org) == OwnedBy(a, org) + OwnedBy(b, org)
    decreases |b|
  {
    if b == [] {
      assert a + b == a;
    } else {
      var init := b[..|b| - 1];
      var last := b[|b| - 1];
      OwnedByAppend(a, init, org);
      assert a + b == (a + init) + [last];
      assert (a + b)[..|a + b| - 1] == a + init;
    }
  }

  /** The filter keeps exactly the rows of the tenant, each as often as it
      occurs. */
  lemma OwnedByExact(rows: seq<Row>, org: OrgId)
    ensures forall row: Row :: row in OwnedBy(rows, org) <==> row in rows && row.organization == org
    ensures multiset(OwnedBy(rows, org)) <= multiset(rows)
    ensures forall row: Row :: row.organization == org ==> multiset(OwnedBy(rows, org))[row] == multiset(rows)[row]
  {
    OwnedByCounts(rows, org);
    var q := OwnedBy(rows, org);
    forall row: Row ensures row in q <==> row in rows && row.organization == org {
      assert row in q <==> multiset(q)[row] > 0;
      assert row in rows <==> multiset(rows)[row] > 0;
    }
  }

  /** Without a tenant, or for a model without an `organization` field, the
      queryset is unchanged; otherwise every row it yields is the tenant's
      and none of the tenant's rows is lost. */
  lemma TenantIsolation(rows: seq<Row>, organization: Option<OrgId>, modelHasOrganization: bool)
    ensures organization.None? || !modelHasOrganization ==> TenantQueryset(rows, organization, modelHasOrganization) == rows
    ensures organization.Some? && modelHasOrganization ==>
      var q := TenantQueryset(rows, organization, modelHasOrganization);
      && (forall row: Row :: row in q <==> row in rows && row.organization == organization.value)
      && multiset(q) <= multiset(rows)
  {
    if organization.Some? {
      OwnedByExact(rows, organization.value);
    }
  }
}
