/** The browser-local store the four repositories share and the operations
    that change it. Each repository loads its whole collection, changes it and
    writes the whole collection back under its own key; structured cloning
    through JSON is the identity here, so a collection is just a field. */
module Storage {
  import opened ArrayOps
  import Repository
  import Incidents
  import Alerts
  import RegionalAdmins
  import Guides

  /** `localStorage` as the repositories see it: one array per key. A key
      that was never written reads as the empty array. */
  class LocalStore {
    /** `urgences_incidents` */
    var incidents: seq<Incidents.Incident>
    /** `urgences_alerts` */
    var alerts: seq<Alerts.Alert>
    /** `urgences_guides` */
    var guides: seq<Guides.Guide>
    /** `urgences_regional_admins` */
    var regionalAdmins: seq<RegionalAdmins.RegionalAdmin>

    /** A store in which no key has been written. */
    constructor ()
      ensures incidents == [] && alerts == [] && guides == [] && regionalAdmins == []
    {
      incidents, alerts, guides, regionalAdmins := [], [], [], [];
    }

    // ---------------------------------------------------------------- incidents

    /** `incidentStorage.create`: appends the new incident, which starts as
        `ALERTE_RECUE`. If no earlier incident had `freshId`, looking it up
        finds exactly the returned record. */
    method CreateIncident(draft: Incidents.Draft, freshId: string, now: string) returns (r: Incidents.Incident)
      modifies this`incidents
      ensures r == Incidents.FromDraft(draft, freshId, now)
      ensures r.statut == Incidents.AlerteRecue && r.id == freshId && r.dateCreation == now
      ensures incidents == old(incidents) + [r]
      ensures Repository.GetById(old(incidents), Incidents.IdOf, freshId).None? ==>
                Repository.GetById(incidents, Incidents.IdOf, freshId) == Some(r)
    {
      var all := incidents;
      r := Incidents.FromDraft(draft, freshId, now);
      Repository.GetByIdAfterAppend(all, Incidents.IdOf, r);
      all := all + [r];
      incidents := all;
    }

    /** `incidentStorage.update`: on a missing `id` nothing is written and the
        result is absent; otherwise the first incident with `id` is replaced by
        its merge with `updates`, stamped `now`, and nothing else moves. */
    method UpdateIncident(id: string, updates: Incidents.Patch, now: string) returns (r: Option<Incidents.Incident>)
      modifies this`incidents
      ensures var k := Repository.IndexOfId(old(incidents), Incidents.IdOf, id);
              if k == -1 then
                r == None && incidents == old(incidents)
              else
                r == Some(Incidents.Merge(old(incidents)[k], updates, now))
                && incidents == old(incidents)[k := r.value]
      ensures r.Some? && (updates.id.None? || updates.id == Some(id)) ==>
                Repository.GetById(incidents, Incidents.IdOf, id) == r
    {
      var all := incidents;
      var index := Repository.IndexOfId(all, Incidents.IdOf, id);
      if index == -1 {
        return None;
      }
      var merged := Incidents.Merge(all[index], updates, now);
      if updates.id.None? || updates.id == Some(id) {
        Repository.GetByIdAfterReplace(all, Incidents.IdOf, id, merged);
      }
      all := all[index := merged];
      incidents := all;
      r := Some(all[index]);
    }

    /** `incidentStorage.updateStatus`: any status may follow any other. */
    method UpdateStatus(id: string, statut: Incidents.Status, now: string) returns (r: Option<Incidents.Incident>)
      modifies this`incidents
      ensures var k := Repository.IndexOfId(old(incidents), Incidents.IdOf, id);
              if k == -1 then
                r == None && incidents == old(incidents)
              else
                r == Some(old(incidents)[k].(statut := statut, dateMiseAJour := Some(now)))
                && incidents == old(incidents)[k := r.value]
      ensures r.Some? ==> Repository.GetById(incidents, Incidents.IdOf, id) == r
    {
      var k := Repository.IndexOfId(incidents, Incidents.IdOf, id);
      if k != -1 {
        Incidents.UpdateStatusOnlySetsStatus(incidents[k], statut, now);
      }
      r := UpdateIncident(id, Incidents.StatusPatch(statut), now);
    }

    /** `incidentStorage.assign` */
    method Assign(id: string, adminId: string, now: string) returns (r: Option<Incidents.Incident>)
      modifies this`incidents
      ensures var k := Repository.IndexOfId(old(incidents), Incidents.IdOf, id);
              if k == -1 then
                r == None && incidents == old(incidents)
              else
                r == Some(old(incidents)[k].(assigne := Some(adminId), dateMiseAJour := Some(now)))
                && incidents == old(incidents)[k := r.value]
    {
      var k := Repository.IndexOfId(incidents, Incidents.IdOf, id);
      if k != -1 {
        Incidents.AssignOnlySetsAssignee(incidents[k], adminId, now);
      }
      r := UpdateIncident(id, Incidents.AssignPatch(adminId), now);
    }

    /** `incidentStorage.addComment`: the comment is dated `commentDate` and
        the update `now` (two readings of the clock). On a missing `id`
        nothing is written. */
    method AddComment(id: string, comment: Incidents.CommentInput, commentDate: string, now: string)
      returns (r: Option<Incidents.Incident>)
      modifies this`incidents
      ensures var k := Repository.IndexOfId(old(incidents), Incidents.IdOf, id);
              if k == -1 then
                r == None && incidents == old(incidents)
              else
                var thread := Incidents.AppendComment(old(incidents)[k], comment, commentDate);
                r == Some(old(incidents)[k].(commentaires := Some(thread), dateMiseAJour := Some(now)))
                && incidents == old(incidents)[k := r.value]
    {
      var incident := Repository.GetById(incidents, Incidents.IdOf, id);
      if incident.None? {
        return None;
      }
      var commentaires := Incidents.AppendComment(incident.value, comment, commentDate);
      Incidents.AddCommentOnlySetsThread(incident.value, comment, commentDate, now);
      r := UpdateIncident(id, Incidents.CommentsPatch(commentaires), now);
    }

    /** `incidentStorage.delete`: every incident with `id` goes, the rest stay
        in order; the result says whether anything went. */
    method DeleteIncident(id: string) returns (removed: bool)
      modifies this`incidents
      ensures incidents == Repository.WithoutId(old(incidents), Incidents.IdOf, id)
      ensures removed <==> exists j :: 0 <= j < |old(incidents)| && old(incidents)[j].id == id
    {
      var all := incidents;
      var filtered := Repository.WithoutId(all, Incidents.IdOf, id);
      incidents := filtered;
      removed := |filtered| < |all|;
    }

    // ------------------------------------------------------------------- alerts

    /** `alertStorage.create`: the new alert's scope is `REGIONAL` exactly when
        the draft has a non-empty region. */
    method CreateAlert(draft: Alerts.Draft, freshId: string, now: string) returns (r: Alerts.Alert)
      modifies this`alerts
      ensures r == Alerts.FromDraft(draft, freshId, now)
      ensures r.scope == Alerts.Regional <==> draft.region.Some? && draft.region.value != ""
      ensures alerts == old(alerts) + [r]
      ensures Repository.GetById(old(alerts), Alerts.IdOf, freshId).None? ==>
                Repository.GetById(alerts, Alerts.IdOf, freshId) == Some(r)
    {
      var all := alerts;
      r := Alerts.FromDraft(draft, freshId, now);
      Repository.GetByIdAfterAppend(all, Alerts.IdOf, r);
      all := all + [r];
      alerts := all;
    }

    /** `alertStorage.update`: a plain merge, with no time stamp and no
        recomputed scope. */
    method UpdateAlert(id: string, updates: Alerts.Patch) returns (r: Option<Alerts.Alert>)
      modifies this`alerts
      ensures var k := Repository.IndexOfId(old(alerts), Alerts.IdOf, id);
              if k == -1 then
                r == None && alerts == old(alerts)
              else
                r == Some(Alerts.Merge(old(alerts)[k], updates)) && alerts == old(alerts)[k := r.value]
      ensures r.Some? && (updates.id.None? || updates.id == Some(id)) ==>
                Repository.GetById(alerts, Alerts.IdOf, id) == r
    {
      var all := alerts;
      var index := Repository.IndexOfId(all, Alerts.IdOf, id);
      if index == -1 {
        return None;
      }
      var merged := Alerts.Merge(all[index], updates);
      if updates.id.None? || updates.id == Some(id) {
        Repository.GetByIdAfterReplace(all, Alerts.IdOf, id, merged);
      }
      all := all[index := merged];
      alerts := all;
      r := Some(all[index]);
    }

    /** `alertStorage.delete` */
    method DeleteAlert(id: string) returns (removed: bool)
      modifies this`alerts
      ensures alerts == Repository.WithoutId(old(alerts), Alerts.IdOf, id)
      ensures removed <==> exists j :: 0 <= j < |old(alerts)| && old(alerts)[j].id == id
    {
      var all := alerts;
      var filtered := Repository.WithoutId(all, Alerts.IdOf, id);
      alerts := filtered;
      removed := |filtered| < |all|;
    }

    // --------------------------------------------------------- regional admins

    /** `regionalAdminStorage.create` */
    method CreateAdmin(draft: RegionalAdmins.Draft, freshId: string, now: string) returns (r: RegionalAdmins.RegionalAdmin)
      modifies this`regionalAdmins
      ensures r == RegionalAdmins.FromDraft(draft, freshId, now)
      ensures regionalAdmins == old(regionalAdmins) + [r]
      ensures Repository.GetById(old(regionalAdmins), RegionalAdmins.IdOf, freshId).None? ==>
                Repository.GetById(regionalAdmins, RegionalAdmins.IdOf, freshId) == Some(r)
    {
      var all := regionalAdmins;
      r := RegionalAdmins.FromDraft(draft, freshId, now);
      Repository.GetByIdAfterAppend(all, RegionalAdmins.IdOf, r);
      all := all + [r];
      regionalAdmins := all;
    }

    /** `regionalAdminStorage.update` */
    method UpdateAdmin(id: string, updates: RegionalAdmins.Patch) returns (r: Option<RegionalAdmins.RegionalAdmin>)
      modifies this`regionalAdmins
      ensures var k := Repository.IndexOfId(old(regionalAdmins), RegionalAdmins.IdOf, id);
              if k == -1 then
                r == None && regionalAdmins == old(regionalAdmins)
              else
                r == Some(RegionalAdmins.Merge(old(regionalAdmins)[k], updates))
                && regionalAdmins == old(regionalAdmins)[k := r.value]
      ensures r.Some? && (updates.id.None? || updates.id == Some(id)) ==>
                Repository.GetById(regionalAdmins, RegionalAdmins.IdOf, id) == r
    {
      var all := regionalAdmins;
      var index := Repository.IndexOfId(all, RegionalAdmins.IdOf, id);
      if index == -1 {
        return None;
      }
      var merged := RegionalAdmins.Merge(all[index], updates);
      if updates.id.None? || updates.id == Some(id) {
        Repository.GetByIdAfterReplace(all, RegionalAdmins.IdOf, id, merged);
      }
      all := all[index := merged];
      regionalAdmins := all;
      r := Some(all[index]);
    }

    /** `regionalAdminStorage.delete` */
    method DeleteAdmin(id: string) returns (removed: bool)
      modifies this`regionalAdmins
      ensures regionalAdmins == Repository.WithoutId(old(regionalAdmins), RegionalAdmins.IdOf, id)
      ensures removed <==> exists j :: 0 <= j < |old(regionalAdmins)| && old(regionalAdmins)[j].id == id
    {
      var all := regionalAdmins;
      var filtered := Repository.WithoutId(all, RegionalAdmins.IdOf, id);
      regionalAdmins := filtered;
      removed := |filtered| < |all|;
    }

    // ------------------------------------------------------------------- guides

    /** `guideStorage.create` */
    method CreateGuide(draft: Guides.Draft, freshId: string, now: string) returns (r: Guides.Guide)
      modifies this`guides
      ensures r == Guides.FromDraft(draft, freshId, now)
      ensures guides == old(guides) + [r]
      ensures Repository.GetById(old(guides), Guides.IdOf, freshId).None? ==>
                Repository.GetById(guides, Guides.IdOf, freshId) == Some(r)
    {
      var all := guides;
      r := Guides.FromDraft(draft, freshId, now);
      Repository.GetByIdAfterAppend(all, Guides.IdOf, r);
      all := all + [r];
      guides := all;
    }
  }

  /** The three reference guides `initializeStorage` creates, in this order. */
  const DefaultGuides: seq<Guides.Draft> :=
    [
      Guides.Draft(
        "Que faire en cas d'incendie",
        "\n1. Alertez immédiatement les pompiers (198)\n2. Ne prenez pas l'ascenseur\n3. Fermez les portes derrière vous\n4. Si la fumée est dense, rampez au sol\n5. Ne retournez jamais dans un bâtiment en feu\n6. Utilisez un extincteur uniquement si vous savez comment l'utiliser\n        ",
        "INCENDIE"),
      Guides.Draft(
        "Que faire en cas de séisme",
        "\n1. Restez calme et ne paniquez pas\n2. Mettez-vous à l'abri sous une table solide ou un encadrement de porte\n3. Éloignez-vous des fenêtres et des objets qui peuvent tomber\n4. Si vous êtes à l'extérieur, éloignez-vous des bâtiments\n5. Après le séisme, vérifiez les fuites de gaz et d'eau\n6. Écoutez la radio pour les instructions officielles\n        ",
        "SEISME"),
      Guides.Draft(
        "Premiers gestes de secours",
        "\n1. Sécurisez la zone (évitez le sur-accident)\n2. Vérifiez la conscience de la victime\n3. Appelez les secours (198 pour les pompiers, 190 pour la police)\n4. Si la personne est inconsciente, placez-la en position latérale de sécurité\n5. En cas d'hémorragie, comprimez la plaie\n6. Ne donnez jamais à boire à une personne inconsciente\n        ",
        "PREMIERS_SECOURS")
    ]

  /** The guide collection after seeding: the three reference guides (the
      k-th with the k-th identifier and time) when it was empty, and
      unchanged otherwise. */
  function Seed(existing: seq<Guides.Guide>, ids: seq<string>, stamps: seq<string>): (r: seq<Guides.Guide>)
    requires |ids| == |DefaultGuides| && |stamps| == |DefaultGuides|
    ensures |existing| > 0 ==> r == existing
    ensures |existing| == 0 ==> |r| == 3 && r == Guides.FromDrafts(DefaultGuides, ids, stamps)
  {
    if |existing| == 0 then Guides.FromDrafts(DefaultGuides, ids, stamps) else existing
  }

  /** `drafts.forEach(guide => guideStorage.create(guide))`: one `create` per
      draft, in order, the k-th producing `ids[k]` and `stamps[k]`. */
  method CreateEach(store: LocalStore, drafts: seq<Guides.Draft>, ids: seq<string>, stamps: seq<string>)
    requires |ids| == |drafts| && |stamps| == |drafts|
    modifies store`guides
    ensures store.guides == old(store.guides) + Guides.FromDrafts(drafts, ids, stamps)
  {
    var i := 0;
    while i < |drafts|
      invariant 0 <= i <= |drafts|
      invariant store.guides == old(store.guides) + Guides.FromDrafts(drafts[..i], ids[..i], stamps[..i])
    {
      var created := store.CreateGuide(drafts[i], ids[i], stamps[i]);
      assert drafts[..i + 1][..i] == drafts[..i];
      assert ids[..i + 1][..i] == ids[..i];
      assert stamps[..i + 1][..i] == stamps[..i];
      i := i + 1;
    }
    assert drafts[..i] == drafts && ids[..i] == ids && stamps[..i] == stamps;
  }

  /** `initializeStorage`: when the guide collection is empty, one `create`
      per reference guide, in order; otherwise nothing. `ids` and `stamps`
      are the identifier and time each of those `create` calls produces. */
  method InitializeStorage(store: LocalStore, ids: seq<string>, stamps: seq<string>)
    requires |ids| == |DefaultGuides| && |stamps| == |DefaultGuides|
    modifies store`guides
    ensures store.guides == Seed(old(store.guides), ids, stamps)
  {
    var existingGuides := store.guides;
    if |existingGuides| == 0 {
      CreateEach(store, DefaultGuides, ids, stamps);
    }
  }

  /** Seeding a collection that starts empty gives three guides of the
      categories INCENDIE, SEISME and PREMIERS_SECOURS, in that order. */
  lemma SeedCategories(ids: seq<string>, stamps: seq<string>)
    requires |ids| == |DefaultGuides| && |stamps| == |DefaultGuides|
    ensures var r := Seed([], ids, stamps);
            |r| == 3
            && r[0].categorie == "INCENDIE" && r[1].categorie == "SEISME"
            && r[2].categorie == "PREMIERS_SECOURS"
            && forall k :: 0 <= k < 3 ==> r[k].id == ids[k] && r[k].dateCreation == stamps[k]
  {
  }

  /** Seeding twice gives the collection seeding once gives, whatever the
      second run's identifiers and times. */
  lemma SeedIdempotent(existing: seq<Guides.Guide>, ids1: seq<string>, stamps1: seq<string>,
                       ids2: seq<string>, stamps2: seq<string>)
    requires |ids1| == |DefaultGuides| && |stamps1| == |DefaultGuides|
    requires |ids2| == |DefaultGuides| && |stamps2| == |DefaultGuides|
    ensures Seed(Seed(existing, ids1, stamps1), ids2, stamps2) == Seed(existing, ids1, stamps1)
  {
  }
}
