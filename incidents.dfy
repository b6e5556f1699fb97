/** The incident records of `incidentStorage` and everything about them that
    is computed rather than stored: building a record at `create`, the shallow
    merge of `update`, its three specialisations (`updateStatus`, `assign`,
    `addComment`) and the three field-equality filters. */
module Incidents {
  import opened ArrayOps

  /** `statut`. `create` always starts at `AlerteRecue`; `updateStatus` may
      set any of the four from any other. */
  datatype Status = AlerteRecue | SecoursEnRoute | EnCours | Resolu

  datatype Comment = Comment(auteur: string, message: string, date: string)

  /** What a caller of `addComment` supplies; the date is added by the store. */
  datatype CommentInput = CommentInput(auteur: string, message: string)

  /** A latitude or longitude: a floating-point number that the store only
      copies, never computes with. */
  type Coordinate = real

  /** One stored incident (the `type` key is `incidentType` here). */
  datatype Incident = Incident(
    id: string,
    incidentType: string,
    sousType: string,
    latitude: Coordinate,
    longitude: Coordinate,
    adresse: Option<string>,
    description: string,
    nombreVictimes: Option<int>,
    niveauDanger: Option<int>,
    utilisateurId: Option<string>,
    statut: Status,
    piecesJointes: Option<seq<string>>,
    dateCreation: string,
    dateMiseAJour: Option<string>,
    region: Option<string>,
    commentaires: Option<seq<Comment>>,
    assigne: Option<string>)

  /** The argument of `create`: every key except `id`, `dateCreation` and
      `statut`, which the store supplies. */
  datatype Draft = Draft(
    incidentType: string,
    sousType: string,
    latitude: Coordinate,
    longitude: Coordinate,
    adresse: Option<string>,
    description: string,
    nombreVictimes: Option<int>,
    niveauDanger: Option<int>,
    utilisateurId: Option<string>,
    piecesJointes: Option<seq<string>>,
    dateMiseAJour: Option<string>,
    region: Option<string>,
    commentaires: Option<seq<Comment>>,
    assigne: Option<string>)

  /** `Partial<Incident>`: `None` is a key the object does not have. For an
      optional key, `Some(None)` is the key given as `undefined`, which the
      spread copies over (and so clears) the stored value. */
  datatype Patch = Patch(
    id: Option<string>,
    incidentType: Option<string>,
    sousType: Option<string>,
    latitude: Option<Coordinate>,
    longitude: Option<Coordinate>,
    adresse: Option<Option<string>>,
    description: Option<string>,
    nombreVictimes: Option<Option<int>>,
    niveauDanger: Option<Option<int>>,
    utilisateurId: Option<Option<string>>,
    statut: Option<Status>,
    piecesJointes: Option<Option<seq<string>>>,
    dateCreation: Option<string>,
    dateMiseAJour: Option<Option<string>>,
    region: Option<Option<string>>,
    commentaires: Option<Option<seq<Comment>>>,
    assigne: Option<Option<string>>)

  /** `{}` */
  const NoChanges: Patch := Patch(None, None, None, None, None, None, None, None, None,
                                  None, None, None, None, None, None, None, None)

  /** `{ statut }`, the patch of `updateStatus`. */
  function StatusPatch(statut: Status): Patch {
    NoChanges.(statut := Some(statut))
  }

  /** `{ assigne: adminId }`, the patch of `assign`. */
  function AssignPatch(adminId: string): Patch {
    NoChanges.(assigne := Some(Some(adminId)))
  }

  /** `{ commentaires }`, the patch of `addComment`. */
  function CommentsPatch(commentaires: seq<Comment>): Patch {
    NoChanges.(commentaires := Some(Some(commentaires)))
  }

  function IdOf(i: Incident): string {
    i.id
  }

  /** The keys of a stored incident that a `create` argument carries. */
  function ToDraft(i: Incident): Draft {
    Draft(i.incidentType, i.sousType, i.latitude, i.longitude, i.adresse, i.description,
          i.nombreVictimes, i.niveauDanger, i.utilisateurId, i.piecesJointes,
          i.dateMiseAJour, i.region, i.commentaires, i.assigne)
  }

  /** `{ ...incident, id, dateCreation, statut: 'ALERTE_RECUE' }`: the record
      `create` appends. The three keys written after the spread are the
      store's; every other key is the caller's, unchanged. */
  function FromDraft(d: Draft, freshId: string, now: string): (r: Incident)
    ensures r.id == freshId && r.dateCreation == now && r.statut == AlerteRecue
    ensures ToDraft(r) == d
  {
    Incident(freshId, d.incidentType, d.sousType, d.latitude, d.longitude, d.adresse,
             d.description, d.nombreVictimes, d.niveauDanger, d.utilisateurId, AlerteRecue,
             d.piecesJointes, now, d.dateMiseAJour, d.region, d.commentaires, d.assigne)
  }

  /** `{ ...incidents[index], ...updates, dateMiseAJour: now }`: every key the
      patch has overrides the stored one, and `dateMiseAJour` is the fresh
      time whatever the patch says about it. */
  function Merge(i: Incident, p: Patch, now: string): (r: Incident)
    ensures r.dateMiseAJour == Some(now)
    ensures p.id.None? ==> r.id == i.id
    ensures p.dateCreation.None? ==> r.dateCreation == i.dateCreation
    ensures p.statut.None? ==> r.statut == i.statut
  {
    Incident(
      Spread(i.id, p.id),
      Spread(i.incidentType, p.incidentType),
      Spread(i.sousType, p.sousType),
      Spread(i.latitude, p.latitude),
      Spread(i.longitude, p.longitude),
      Spread(i.adresse, p.adresse),
      Spread(i.description, p.description),
      Spread(i.nombreVictimes, p.nombreVictimes),
      Spread(i.niveauDanger, p.niveauDanger),
      Spread(i.utilisateurId, p.utilisateurId),
      Spread(i.statut, p.statut),
      Spread(i.piecesJointes, p.piecesJointes),
      Spread(i.dateCreation, p.dateCreation),
      Some(now),
      Spread(i.region, p.region),
      Spread(i.commentaires, p.commentaires),
      Spread(i.assigne, p.assigne))
  }

  /** `{ ...p, ...q }` for two patches: a key of `q` wins over the same key of `p`. */
  function Then(p: Patch, q: Patch): Patch {
    Patch(
      Later(p.id, q.id), Later(p.incidentType, q.incidentType), Later(p.sousType, q.sousType),
      Later(p.latitude, q.latitude), Later(p.longitude, q.longitude), Later(p.adresse, q.adresse),
      Later(p.description, q.description), Later(p.nombreVictimes, q.nombreVictimes),
      Later(p.niveauDanger, q.niveauDanger), Later(p.utilisateurId, q.utilisateurId),
      Later(p.statut, q.statut), Later(p.piecesJointes, q.piecesJointes),
      Later(p.dateCreation, q.dateCreation), Later(p.dateMiseAJour, q.dateMiseAJour),
      Later(p.region, q.region), Later(p.commentaires, q.commentaires), Later(p.assigne, q.assigne))
  }

  function Later<T>(first: Option<T>, second: Option<T>): Option<T> {
    if second.Some? then second else first
  }

  /** `incident.commentaires || []` */
  function CommentsOrEmpty(i: Incident): seq<Comment> {
    match i.commentaires
    case Some(cs) => cs
    case None => []
  }

  /** The thread `addComment` writes: the old one (empty when absent) with one
      comment at the end. */
  function AppendComment(i: Incident, c: CommentInput, date: string): (r: seq<Comment>)
    ensures |r| == |CommentsOrEmpty(i)| + 1
    ensures r[..|r| - 1] == CommentsOrEmpty(i)
    ensures r[|r| - 1] == Comment(c.auteur, c.message, date)
  {
    CommentsOrEmpty(i) + [Comment(c.auteur, c.message, date)]
  }

  /** `getByUserId`: the incidents reported by `userId`, in stored order. */
  function GetByUserId(all: seq<Incident>, userId: string): (r: seq<Incident>)
    ensures forall j :: 0 <= j < |r| ==> r[j] in all && r[j].utilisateurId == Some(userId)
    ensures forall x :: multiset(r)[x] == if x.utilisateurId == Some(userId) then multiset(all)[x] else 0
  {
    var p := (i: Incident) => i.utilisateurId == Some(userId);
    FilterMultiset(all, p);
    Filter(all, p)
  }

  /** `getByType` */
  function GetByType(all: seq<Incident>, incidentType: string): (r: seq<Incident>)
    ensures forall j :: 0 <= j < |r| ==> r[j] in all && r[j].incidentType == incidentType
    ensures forall x :: multiset(r)[x] == if x.incidentType == incidentType then multiset(all)[x] else 0
  {
    var p := (i: Incident) => i.incidentType == incidentType;
    FilterMultiset(all, p);
    Filter(all, p)
  }

  /** `getByRegion`: an incident without a region matches no region. */
  function GetByRegion(all: seq<Incident>, region: string): (r: seq<Incident>)
    ensures forall j :: 0 <= j < |r| ==> r[j] in all && r[j].region == Some(region)
    ensures forall x :: multiset(r)[x] == if x.region == Some(region) then multiset(all)[x] else 0
  {
    var p := (i: Incident) => i.region == Some(region);
    FilterMultiset(all, p);
    Filter(all, p)
  }

  /** `create` needs nothing of the caller's draft beyond its keys: forgetting
      the three store-supplied keys gives the draft back, and a record freshly
      created is rebuilt from its draft, `id` and `dateCreation`. */
  lemma DraftRoundTrip(d: Draft, freshId: string, now: string, i: Incident)
    ensures ToDraft(FromDraft(d, freshId, now)) == d
    ensures i.statut == AlerteRecue ==> FromDraft(ToDraft(i), i.id, i.dateCreation) == i
  {
  }

  /** `updateStatus` is `update` with `{ statut }`: it sets the status (with no
      check of the transition) and the update time, and nothing else. */
  lemma UpdateStatusOnlySetsStatus(i: Incident, statut: Status, now: string)
    ensures Merge(i, StatusPatch(statut), now) == i.(statut := statut, dateMiseAJour := Some(now))
  {
  }

  /** `assign` is `update` with `{ assigne }`. */
  lemma AssignOnlySetsAssignee(i: Incident, adminId: string, now: string)
    ensures Merge(i, AssignPatch(adminId), now) == i.(assigne := Some(adminId), dateMiseAJour := Some(now))
  {
  }

  /** `addComment`'s update touches only the thread and the update time. */
  lemma AddCommentOnlySetsThread(i: Incident, c: CommentInput, date: string, now: string)
    ensures Merge(i, CommentsPatch(AppendComment(i, c, date)), now)
         == i.(commentaires := Some(AppendComment(i, c, date)), dateMiseAJour := Some(now))
  {
  }

  /** Two comments added in turn stay in the order they were added, after the
      thread that was there. */
  lemma CommentsKeepOrder(i: Incident, c1: CommentInput, d1: string, t1: string,
                          c2: CommentInput, d2: string)
    ensures var once := Merge(i, CommentsPatch(AppendComment(i, c1, d1)), t1);
            AppendComment(once, c2, d2)
              == CommentsOrEmpty(i) + [Comment(c1.auteur, c1.message, d1), Comment(c2.auteur, c2.message, d2)]
  {
  }

  /** Two consecutive updates of one incident equal one update with the
      patches spread together, stamped with the later time. */
  lemma MergeTwice(i: Incident, p: Patch, t1: string, q: Patch, t2: string)
    ensures Merge(Merge(i, p, t1), q, t2) == Merge(i, Then(p, q), t2)
  {
  }

  /** Applying the same patch again at the same time changes nothing more. */
  lemma MergeIdempotent(i: Incident, p: Patch, now: string)
    ensures Merge(Merge(i, p, now), p, now) == Merge(i, p, now)
  {
  }
}
