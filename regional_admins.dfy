/** The regional administrators of `regionalAdminStorage`. */
module RegionalAdmins {
  import opened ArrayOps

  /** `role`, which has the single value `'REGIONAL_ADMIN'`. */
  datatype Role = RegionalAdminRole

  datatype Permissions = Permissions(lecture: bool, edition: bool, suppression: bool)

  datatype RegionalAdmin = RegionalAdmin(
    id: string,
    nomComplet: string,
    email: string,
    telephone: string,
    region: string,
    role: Role,
    permissions: Permissions,
    notificationsActives: bool,
    dateCreation: string,
    actif: bool)

  /** The argument of `create`: every key except `id` and `dateCreation`. */
  datatype Draft = Draft(
    nomComplet: string,
    email: string,
    telephone: string,
    region: string,
    role: Role,
    permissions: Permissions,
    notificationsActives: bool,
    actif: bool)

  /** `Partial<RegionalAdmin>`. The spread is shallow: a patch that names
      `permissions` replaces the whole triple. */
  datatype Patch = Patch(
    id: Option<string>,
    nomComplet: Option<string>,
    email: Option<string>,
    telephone: Option<string>,
    region: Option<string>,
    role: Option<Role>,
    permissions: Option<Permissions>,
    notificationsActives: Option<bool>,
    dateCreation: Option<string>,
    actif: Option<bool>)

  const NoChanges: Patch := Patch(None, None, None, None, None, None, None, None, None, None)

  function IdOf(a: RegionalAdmin): string {
    a.id
  }

  function ToDraft(a: RegionalAdmin): Draft {
    Draft(a.nomComplet, a.email, a.telephone, a.region, a.role, a.permissions,
          a.notificationsActives, a.actif)
  }

  /** `{ ...admin, id, dateCreation }`: the record `create` appends. */
  function FromDraft(d: Draft, freshId: string, now: string): (r: RegionalAdmin)
    ensures r.id == freshId && r.dateCreation == now
    ensures ToDraft(r) == d
  {
    RegionalAdmin(freshId, d.nomComplet, d.email, d.telephone, d.region, d.role, d.permissions,
                  d.notificationsActives, now, d.actif)
  }

  /** `{ ...admins[index], ...updates }` */
  function Merge(a: RegionalAdmin, p: Patch): (r: RegionalAdmin)
    ensures p == NoChanges ==> r == a
    ensures p.permissions.Some? ==> r.permissions == p.permissions.value
  {
    RegionalAdmin(
      Spread(a.id, p.id),
      Spread(a.nomComplet, p.nomComplet),
      Spread(a.email, p.email),
      Spread(a.telephone, p.telephone),
      Spread(a.region, p.region),
      Spread(a.role, p.role),
      Spread(a.permissions, p.permissions),
      Spread(a.notificationsActives, p.notificationsActives),
      Spread(a.dateCreation, p.dateCreation),
      Spread(a.actif, p.actif))
  }

  /** `getByRegion`: the ACTIVE administrators of that region, in order. */
  function GetByRegion(all: seq<RegionalAdmin>, region: string): (r: seq<RegionalAdmin>)
    ensures forall j :: 0 <= j < |r| ==> r[j] in all && r[j].region == region && r[j].actif
    ensures forall x :: multiset(r)[x] == if x.region == region && x.actif then multiset(all)[x] else 0
  {
    var p := (a: RegionalAdmin) => a.region == region && a.actif;
    FilterMultiset(all, p);
    Filter(all, p)
  }

  /** An inactive administrator is never listed for a region, even their own. */
  lemma InactiveNeverListed(all: seq<RegionalAdmin>, a: RegionalAdmin, region: string)
    requires !a.actif
    ensures a !in GetByRegion(all, region)
  {
  }
}
