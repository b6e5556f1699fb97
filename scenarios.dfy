/** Client runs of the store, written against the contracts alone, each on a
    freshly created store. */
module Scenarios {
  import opened ArrayOps
  import Repository
  import Incidents
  import Alerts
  import Storage

  /** Create an incident, find it by its identifier, then resolve it. */
  method CreateThenResolve(draft: Incidents.Draft, freshId: string, t1: string, t2: string) {
    var store := new Storage.LocalStore();
    var created := store.CreateIncident(draft, freshId, t1);
    assert Repository.GetById(store.incidents, Incidents.IdOf, freshId) == Some(created);
    assert created.statut == Incidents.AlerteRecue && created.dateMiseAJour == draft.dateMiseAJour;
    var resolved := store.UpdateStatus(freshId, Incidents.Resolu, t2);
    var found := Repository.GetById(store.incidents, Incidents.IdOf, freshId);
    assert found == resolved;
    assert found.Some? && found.value.statut == Incidents.Resolu && found.value.dateMiseAJour == Some(t2);
    assert found.value.dateCreation == t1;
  }

  /** Two comments on an incident that had none end up in the order added. */
  method CommentsInOrder(draft: Incidents.Draft, freshId: string, t0: string,
                         c1: Incidents.CommentInput, d1: string, t1: string,
                         c2: Incidents.CommentInput, d2: string, t2: string) {
    var store := new Storage.LocalStore();
    var created := store.CreateIncident(draft.(commentaires := None), freshId, t0);
    var first := store.AddComment(freshId, c1, d1, t1);
    assert first.Some? && first.value.commentaires == Some([Incidents.Comment(c1.auteur, c1.message, d1)]);
    assert store.incidents == [first.value] && first.value.id == freshId;
    assert Repository.IndexOfId(store.incidents, Incidents.IdOf, freshId) == 0;
    assert Incidents.AppendComment(first.value, c2, d2)
        == [Incidents.Comment(c1.auteur, c1.message, d1), Incidents.Comment(c2.auteur, c2.message, d2)];
    var second := store.AddComment(freshId, c2, d2, t2);
    assert second.Some?;
    assert second.value.commentaires
        == Some([Incidents.Comment(c1.auteur, c1.message, d1), Incidents.Comment(c2.auteur, c2.message, d2)]);
    var missing := store.AddComment(freshId + "x", c1, d1, t1);
    assert missing == None;
  }

  /** Deleting the one incident reports a removal; deleting it again does not. */
  method DeleteTwice(draft: Incidents.Draft, freshId: string, now: string) {
    var store := new Storage.LocalStore();
    var created := store.CreateIncident(draft, freshId, now);
    var removed := store.DeleteIncident(freshId);
    assert removed;
    assert |store.incidents| == 0;
    var again := store.DeleteIncident(freshId);
    assert !again && store.incidents == [];
  }

  /** A global alert and a regional alert of "North": the "North" view lists
      both, the "South" view only the global one. */
  method RegionViews(g: Alerts.Draft, n: Alerts.Draft, idG: string, idN: string, now: string) {
    var store := new Storage.LocalStore();
    var global := store.CreateAlert(g.(region := None), idG, now);
    var regional := store.CreateAlert(n.(region := Some("North")), idN, now);
    assert store.alerts == [global, regional];
    Alerts.TwoRegionViews(global, regional);
    assert Alerts.GetByRegion(store.alerts, "North") == [global, regional];
    assert Alerts.GetByRegion(store.alerts, "South") == [global];
  }

  /** Seeding a new store twice leaves the three guides of the first run. */
  method SeedTwice(ids1: seq<string>, stamps1: seq<string>, ids2: seq<string>, stamps2: seq<string>)
    requires |ids1| == 3 && |stamps1| == 3 && |ids2| == 3 && |stamps2| == 3
  {
    var store := new Storage.LocalStore();
    Storage.InitializeStorage(store, ids1, stamps1);
    var once := store.guides;
    assert |once| == 3;
    Storage.InitializeStorage(store, ids2, stamps2);
    assert store.guides == once;
  }
}
