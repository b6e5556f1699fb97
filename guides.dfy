/** The prevention guides of `guideStorage`; they are created (by the seeding
    routine among others) and read, never updated or deleted. */
module Guides {
  import opened ArrayOps

  datatype Guide = Guide(id: string, titre: string, contenu: string, categorie: string, dateCreation: string)

  /** The argument of `create`: every key except `id` and `dateCreation`. */
  datatype Draft = Draft(titre: string, contenu: string, categorie: string)

  function IdOf(g: Guide): string {
    g.id
  }

  /** `{ ...guide, id, dateCreation }`: the record `create` appends. */
  function FromDraft(d: Draft, freshId: string, now: string): (r: Guide)
    ensures r.id == freshId && r.dateCreation == now
    ensures Draft(r.titre, r.contenu, r.categorie) == d
  {
    Guide(freshId, d.titre, d.contenu, d.categorie, now)
  }

  /** The guides that a run of `create` calls over `drafts` appends, the k-th
      with the k-th identifier and time. */
  function FromDrafts(drafts: seq<Draft>, ids: seq<string>, stamps: seq<string>): (r: seq<Guide>)
    requires |ids| == |drafts| && |stamps| == |drafts|
    ensures |r| == |drafts|
    ensures forall k :: 0 <= k < |drafts| ==> r[k] == FromDraft(drafts[k], ids[k], stamps[k])
  {
    if |drafts| == 0 then []
    else
      var n := |drafts| - 1;
      FromDrafts(drafts[..n], ids[..n], stamps[..n]) + [FromDraft(drafts[n], ids[n], stamps[n])]
  }

  /** `getByCategorie`: the guides of one category, in order. */
  function GetByCategorie(all: seq<Guide>, categorie: string): (r: seq<Guide>)
    ensures forall j :: 0 <= j < |r| ==> r[j] in all && r[j].categorie == categorie
    ensures forall x :: multiset(r)[x] == if x.categorie == categorie then multiset(all)[x] else 0
  {
    var p := (g: Guide) => g.categorie == categorie;
    FilterMultiset(all, p);
    Filter(all, p)
  }
}
