/** The public alerts of `alertStorage`: the scope `create` derives from the
    region, the plain merge of `update`, and the two filters of the read side. */
module Alerts {
  import opened ArrayOps

  /** `niveau` */
  datatype Level = Critique | Eleve | Moyen | Faible

  /** `scope`: who sees the alert. */
  datatype Scope = Global | Regional

  datatype Alert = Alert(
    id: string,
    titre: string,
    message: string,
    niveau: Level,
    actif: bool,
    dateCreation: string,
    dateExpiration: Option<string>,
    region: Option<string>,
    scope: Scope)

  /** The argument of `create`: every key except `id` and `dateCreation`. It
      does carry a `scope`, which `create` overwrites. */
  datatype Draft = Draft(
    titre: string,
    message: string,
    niveau: Level,
    actif: bool,
    dateExpiration: Option<string>,
    region: Option<string>,
    scope: Scope)

  /** `Partial<Alert>`, read as the incident patch is: `Some(None)` on an
      optional key is that key given as `undefined`. */
  datatype Patch = Patch(
    id: Option<string>,
    titre: Option<string>,
    message: Option<string>,
    niveau: Option<Level>,
    actif: Option<bool>,
    dateCreation: Option<string>,
    dateExpiration: Option<Option<string>>,
    region: Option<Option<string>>,
    scope: Option<Scope>)

  const NoChanges: Patch := Patch(None, None, None, None, None, None, None, None, None)

  function IdOf(a: Alert): string {
    a.id
  }

  /** JavaScript truthiness of an optional string: present and not `""`. */
  predicate Truthy(region: Option<string>) {
    region.Some? && region.value != ""
  }

  /** `alert.region ? 'REGIONAL' : 'GLOBAL'` */
  function ScopeOf(region: Option<string>): (s: Scope)
    ensures s == Regional <==> region.Some? && region.value != ""
  {
    if Truthy(region) then Regional else Global
  }

  /** The invariant the record type's comment states: an alert is regional
      exactly when it has a region. */
  predicate ScopeConsistent(a: Alert) {
    a.scope == ScopeOf(a.region)
  }

  /** `{ ...alert, scope, id, dateCreation }`: the record `create` appends.
      Its scope is derived from the region, never the caller's. */
  function FromDraft(d: Draft, freshId: string, now: string): (r: Alert)
    ensures r.id == freshId && r.dateCreation == now
    ensures r.scope == Regional <==> d.region.Some? && d.region.value != ""
    ensures ScopeConsistent(r)
    ensures r.titre == d.titre && r.message == d.message && r.niveau == d.niveau && r.actif == d.actif
    ensures r.dateExpiration == d.dateExpiration && r.region == d.region
  {
    Alert(freshId, d.titre, d.message, d.niveau, d.actif, now, d.dateExpiration, d.region,
          ScopeOf(d.region))
  }

  /** `{ ...alerts[index], ...updates }`: no time stamp and no recomputed scope. */
  function Merge(a: Alert, p: Patch): (r: Alert)
    ensures p == NoChanges ==> r == a
    ensures p.scope.None? ==> r.scope == a.scope
  {
    Alert(
      Spread(a.id, p.id),
      Spread(a.titre, p.titre),
      Spread(a.message, p.message),
      Spread(a.niveau, p.niveau),
      Spread(a.actif, p.actif),
      Spread(a.dateCreation, p.dateCreation),
      Spread(a.dateExpiration, p.dateExpiration),
      Spread(a.region, p.region),
      Spread(a.scope, p.scope))
  }

  /** `getAll(actifOnly)`: everything, or only the active alerts, in order. */
  function GetAll(all: seq<Alert>, actifOnly: bool): (r: seq<Alert>)
    ensures !actifOnly ==> r == all
    ensures actifOnly ==> forall j :: 0 <= j < |r| ==> r[j] in all && r[j].actif
    ensures actifOnly ==> forall x :: multiset(r)[x] == if x.actif then multiset(all)[x] else 0
  {
    if actifOnly then
      var p := (a: Alert) => a.actif;
      FilterMultiset(all, p);
      Filter(all, p)
    else all
  }

  /** `getByRegion`: the alerts of that region and every global alert, in order. */
  function GetByRegion(all: seq<Alert>, region: string): (r: seq<Alert>)
    ensures forall j :: 0 <= j < |r| ==> r[j] in all && (r[j].region == Some(region) || r[j].scope == Global)
    ensures forall x ::
              multiset(r)[x] == if x.region == Some(region) || x.scope == Global then multiset(all)[x] else 0
  {
    var p := (a: Alert) => a.region == Some(region) || a.scope == Global;
    FilterMultiset(all, p);
    Filter(all, p)
  }

  /** Whatever scope the caller passes to `create` is ignored. */
  lemma CreateIgnoresCallerScope(d: Draft, s: Scope, freshId: string, now: string)
    ensures FromDraft(d.(scope := s), freshId, now) == FromDraft(d, freshId, now)
  {
  }

  /** A global alert is seen from every region; a regional one only from its own. */
  lemma RegionVisibility(all: seq<Alert>, a: Alert, region: string)
    requires a in all
    ensures a.scope == Global ==> a in GetByRegion(all, region)
    ensures a.scope == Regional ==> (a in GetByRegion(all, region) <==> a.region == Some(region))
  {
  }

  /** A global alert and a regional alert of "North": the "North" view shows
      both in stored order, the "South" view only the global one. */
  lemma TwoRegionViews(g: Alert, n: Alert)
    requires g.scope == Global
    requires n.scope == Regional && n.region == Some("North")
    ensures GetByRegion([g, n], "North") == [g, n]
    ensures GetByRegion([g, n], "South") == [g]
  {
  }

  /** `update` keeps no scope invariant: clearing the region of a regional
      alert leaves it regional, so it is then seen from no region at all. */
  lemma UpdateCanBreakScope(d: Draft, freshId: string, now: string, region: string)
    requires d.region == Some("North")
    ensures var a := Merge(FromDraft(d, freshId, now), NoChanges.(region := Some(None)));
            !ScopeConsistent(a) && GetByRegion([a], region) == []
  {
  }
}
