/** The pattern every repository of the local store repeats, written once over
    any record type whose identifier is read by `key`: look a record up by
    `id` (`find`/`findIndex` with `r.id === id`) and drop every record with an
    `id` (`filter(r => r.id !== id)`), plus what appending (`create`) and
    replacing in place (`update`) do to those lookups. */
module Repository {
  import opened ArrayOps

  /** `r => r.id === id` */
  function HasId<T>(key: T -> string, id: string): T -> bool {
    x => key(x) == id
  }

  /** `r => r.id !== id` */
  function HasOtherId<T>(key: T -> string, id: string): T -> bool {
    x => key(x) != id
  }

  /** `findIndex(r => r.id === id)`: the position of the first record with
      `id`, or -1. */
  function IndexOfId<T>(all: seq<T>, key: T -> string, id: string): (r: int)
    ensures -1 <= r < |all|
    ensures r == -1 <==> forall j :: 0 <= j < |all| ==> key(all[j]) != id
    ensures 0 <= r ==> key(all[r]) == id && forall j :: 0 <= j < r ==> key(all[j]) != id
  {
    var r := FindIndex(all, HasId(key, id));
    assert forall j :: 0 <= j < |all| ==> (HasId(key, id)(all[j]) <==> key(all[j]) == id);
    r
  }

  /** `find(r => r.id === id) || null`: the record at the position `update`
      would touch, or absent. */
  function GetById<T>(all: seq<T>, key: T -> string, id: string): (r: Option<T>)
    ensures r == if IndexOfId(all, key, id) == -1 then None else Some(all[IndexOfId(all, key, id)])
  {
    FindAgreesWithFindIndex(all, HasId(key, id));
    Find(all, HasId(key, id))
  }

  /** `filter(r => r.id !== id)`, the collection `delete` writes back: no
      record with `id` is left, every other record keeps its multiplicity, and
      it is shorter exactly when some record had `id`. */
  function WithoutId<T(!new)>(all: seq<T>, key: T -> string, id: string): (r: seq<T>)
    ensures forall j :: 0 <= j < |r| ==> key(r[j]) != id
    ensures forall x :: key(x) != id ==> multiset(r)[x] == multiset(all)[x]
    ensures |r| < |all| <==> exists j :: 0 <= j < |all| && key(all[j]) == id
  {
    var p := HasOtherId(key, id);
    assert forall x :: p(x) <==> key(x) != id;
    FilterMultiset(all, p);
    FilterShorter(all, p);
    Filter(all, p)
  }

  /** After appending `x` (what `create` does), looking up its `id` finds an
      earlier record with that `id` if there is one, and `x` otherwise. */
  lemma GetByIdAfterAppend<T>(all: seq<T>, key: T -> string, x: T)
    ensures GetById(all + [x], key, key(x)) ==
      if GetById(all, key, key(x)).Some? then GetById(all, key, key(x)) else Some(x)
  {
    FindAppend(all, x, HasId(key, key(x)));
  }

  /** After replacing the first record with `id` by a record that keeps that
      `id` (what `update` does), the lookup finds the new record at the same
      position. */
  lemma GetByIdAfterReplace<T>(all: seq<T>, key: T -> string, id: string, x: T)
    requires IndexOfId(all, key, id) != -1
    requires key(x) == id
    ensures IndexOfId(all[IndexOfId(all, key, id) := x], key, id) == IndexOfId(all, key, id)
    ensures GetById(all[IndexOfId(all, key, id) := x], key, id) == Some(x)
  {
    FindIndexAfterReplace(all, HasId(key, id), x);
  }

  /** Removing an `id` that exactly one record carries shortens the
      collection by exactly one. */
  lemma WithoutUniqueId<T(!new)>(all: seq<T>, key: T -> string, k: nat)
    requires k < |all|
    requires forall j :: 0 <= j < |all| && j != k ==> key(all[j]) != key(all[k])
    ensures |WithoutId(all, key, key(all[k]))| == |all| - 1
  {
    var id := key(all[k]);
    FilterUnique(all, HasId(key, id), k);
    FilterComplement(all, HasId(key, id), HasOtherId(key, id));
  }

  /** Removal keeps the survivors in their order: it distributes over any
      split of the collection. */
  lemma WithoutIdKeepsOrder<T(!new)>(a: seq<T>, b: seq<T>, key: T -> string, id: string)
    ensures WithoutId(a + b, key, id) == WithoutId(a, key, id) + WithoutId(b, key, id)
  {
    FilterConcat(a, b, HasOtherId(key, id));
  }
}
