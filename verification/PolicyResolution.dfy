/** Which policy applies to a recipient domain and organization. */
module PolicyResolution {
  import opened Wrappers
  import opened Tenants

  type DomainId = nat

  datatype Row = Row(id: nat, org: Option<OrgId>, domain: Option<DomainId>, isDefault: bool, updated: int)

  datatype Resolved =
    | FromDomain(row: Row)
    | FromOrg(row: Row, depth: nat)
    | FromDefault(row: Row)
    | Fallback

  /** `SELECT ... WHERE p ORDER BY updated_at DESC LIMIT 1`; among equally new rows the
      database may return any, the model returns the first. */
  function Newest(rows: seq<Row>, p: Row -> bool): Option<Row> {
    if rows == [] then None
    else
      var best := Newest(rows[..|rows| - 1], p);
      var last := rows[|rows| - 1];
      if p(last) && (best.None? || best.value.updated < last.updated) then Some(last) else best
  }

  ghost predicate IsNewest(rows: seq<Row>, p: Row -> bool, best: Option<Row>) {
    match best
    case None => forall r :: r in rows ==> !p(r)
    case Some(b) => b in rows && p(b) && forall r :: r in rows && p(r) ==> r.updated <= b.updated
  }

  lemma {:induction false} NewestIsNewest(rows: seq<Row>, p: Row -> bool)
    ensures IsNewest(rows, p, Newest(rows, p))
    decreases |rows|
  {
    if rows != [] {
      NewestIsNewest(rows[..|rows| - 1], p);
      assert rows == rows[..|rows| - 1] + [rows[|rows| - 1]];
    }
  }

  function ForDomain(domain: DomainId): Row -> bool {
    (r: Row) => r.domain == Some(domain)
  }

  function ForOrg(org: OrgId): Row -> bool {
    (r: Row) => r.domain.None? && r.org == Some(org)
  }

  function IsDefault(): Row -> bool {
    (r: Row) => r.isDefault
  }

  /** The walk up the tree: the first organization of the chain that has a policy answers. */
  function OrgLevel(rows: seq<Row>, chain: seq<OrgId>, depth: nat): Option<Resolved>
    requires depth <= |chain|
    decreases |chain| - depth
  {
    if depth == |chain| then None
    else
      match Newest(rows, ForOrg(chain[depth]))
      case Some(r) => Some(FromOrg(r, depth))
      case None => OrgLevel(rows, chain, depth + 1)
  }

  function ChainOf(f: Forest, org: Option<OrgId>): seq<OrgId>
    requires ValidForest(f)
  {
    if org.Some? && org.value in f.parent then Chain(f, org.value) else []
  }

  function Resolve(f: Forest, rows: seq<Row>, domain: Option<DomainId>, org: Option<OrgId>): Resolved
    requires ValidForest(f)
  {
    var byDomain := if domain.Some? then Newest(rows, ForDomain(domain.value)) else None;
    if byDomain.Some? then FromDomain(byDomain.value)
    else
      var byOrg := OrgLevel(rows, ChainOf(f, org), 0);
      if byOrg.Some? then byOrg.value
      else
        match Newest(rows, IsDefault())
        case Some(r) => FromDefault(r)
        case None => Fallback
  }

  /** No organization of the chain before `depth` has a policy of its own. */
  predicate NoneNearer(rows: seq<Row>, chain: seq<OrgId>, depth: nat)
    requires depth <= |chain|
  {
    forall i, r :: 0 <= i < depth && r in rows ==> !ForOrg(chain[i])(r)
  }

  lemma {:induction false} OrgLevelIsNearest(rows: seq<Row>, chain: seq<OrgId>, depth: nat)
    requires depth <= |chain| && NoneNearer(rows, chain, depth)
    ensures match OrgLevel(rows, chain, depth)
            case None => NoneNearer(rows, chain, |chain|)
            case Some(a) =>
              && a.FromOrg? && a.depth < |chain|
              && NoneNearer(rows, chain, a.depth)
              && IsNewest(rows, ForOrg(chain[a.depth]), Some(a.row))
    decreases |chain| - depth
  {
    if depth < |chain| {
      NewestIsNewest(rows, ForOrg(chain[depth]));
      if Newest(rows, ForOrg(chain[depth])).None? {
        OrgLevelIsNearest(rows, chain, depth + 1);
      }
    }
  }

  predicate HasDomainPolicy(rows: seq<Row>, domain: Option<DomainId>) {
    domain.Some? && exists r :: r in rows && ForDomain(domain.value)(r)
  }

  predicate HasOrgPolicy(rows: seq<Row>, chain: seq<OrgId>) {
    exists i, r :: 0 <= i < |chain| && r in rows && ForOrg(chain[i])(r)
  }

  predicate HasDefault(rows: seq<Row>) {
    exists r :: r in rows && IsDefault()(r)
  }

  /** The precedence of the four levels, and what each level answers.  The organization level
      is answered by the nearest organization with a policy, whose own scope contains the
      target, and by its newest policy. */
  lemma ResolvePrecedence(f: Forest, rows: seq<Row>, domain: Option<DomainId>, org: Option<OrgId>)
    requires ValidForest(f)
    ensures var a, chain := Resolve(f, rows, domain, org), ChainOf(f, org);
            && (a.FromDomain? <==> HasDomainPolicy(rows, domain))
            && (a.FromOrg? <==> !HasDomainPolicy(rows, domain) && HasOrgPolicy(rows, chain))
            && (a.FromDefault? <==>
                  !HasDomainPolicy(rows, domain) && !HasOrgPolicy(rows, chain) && HasDefault(rows))
            && (a.FromDomain? ==> IsNewest(rows, ForDomain(domain.value), Some(a.row)))
            && (a.FromDefault? ==> IsNewest(rows, IsDefault(), Some(a.row)))
            && (a.FromOrg? ==>
                  && org.Some? && a.depth < |chain|
                  && NoneNearer(rows, chain, a.depth)
                  && IsNewest(rows, ForOrg(chain[a.depth]), Some(a.row))
                  && a.row.org == Some(chain[a.depth])
                  && Descends(f, chain[a.depth], org.value))
  {
    if domain.Some? {
      NewestIsNewest(rows, ForDomain(domain.value));
    }
    OrgLevelIsNearest(rows, ChainOf(f, org), 0);
    NewestIsNewest(rows, IsDefault());
  }

  /** A policy written in one organization never reaches mail of an organization outside its scope. */
  lemma PolicyStaysInScope(f: Forest, rows: seq<Row>, domain: Option<DomainId>, org: OrgId, owner: OrgId)
    requires ValidForest(f)
    requires var a := Resolve(f, rows, domain, Some(org)); a.FromOrg? && a.row.org == Some(owner)
    ensures Descends(f, owner, org)
  {
    ResolvePrecedence(f, rows, domain, Some(org));
  }
}
