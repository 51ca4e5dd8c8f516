/**
 * The records of `added_sources` (main.py:67) and the two lookups the
 * endpoints make on that list.
 */
module Sources {
  import opened Wrappers
  import Seqs

  datatype SourceKind = Url | File

  /** `{"id": ..., "name": ..., "type": ...}`; `kind` is the "type", `"url"` or `"file"`. */
  datatype Source = Source(id: string, name: string, kind: SourceKind)

  /** `next((s for s in sources if s["id"] == id), None)`, as the index of the record found. */
  function FindById(sources: seq<Source>, id: string): (r: Option<nat>)
    ensures r.Some? ==> r.value < |sources| && sources[r.value].id == id
                        && forall j :: 0 <= j < r.value ==> sources[j].id != id
    ensures r.None? <==> forall j :: 0 <= j < |sources| ==> sources[j].id != id
  {
    Seqs.FirstWhere(sources, (s: Source) => s.id == id)
  }

  /** `[s for s in sources if s["id"] != id]` (main.py:123). */
  function WithoutId(sources: seq<Source>, id: string): (r: seq<Source>)
    ensures forall s :: s in r <==> s in sources && s.id != id
    ensures |r| == Seqs.Count(sources, (s: Source) => s.id != id)
    ensures Seqs.IsSubsequence(r, sources)
    ensures (forall j :: 0 <= j < |sources| ==> sources[j].id != id) ==> r == sources
  {
    var keep := (s: Source) => s.id != id;
    // Both branches compute the same filter; the first only brings in the
    // lemma behind the last ensures (an absent id leaves the list as it is).
    if forall j :: 0 <= j < |sources| ==> sources[j].id != id then
      Seqs.FilterKeepsAll(sources, keep);
      Seqs.Filter(sources, keep)
    else
      Seqs.Filter(sources, keep)
  }

  /** Removing an id twice is removing it once. */
  lemma WithoutIdIdempotent(sources: seq<Source>, id: string)
    ensures WithoutId(WithoutId(sources, id), id) == WithoutId(sources, id)
  {
    var once := WithoutId(sources, id);
    assert forall j :: 0 <= j < |once| ==> once[j] in once;
  }

  /** Removals by different ids can be made in either order. */
  lemma {:induction false} WithoutIdCommutes(sources: seq<Source>, a: string, b: string)
    ensures WithoutId(WithoutId(sources, a), b) == WithoutId(WithoutId(sources, b), a)
  {
    if sources != [] {
      WithoutIdCommutes(sources[1..], a, b);
      WithoutIdCons(sources, a);
      WithoutIdCons(sources, b);
      WithoutIdCons([sources[0]] + WithoutId(sources[1..], a), b);
      WithoutIdCons([sources[0]] + WithoutId(sources[1..], b), a);
      assert ([sources[0]] + WithoutId(sources[1..], a))[1..] == WithoutId(sources[1..], a);
      assert ([sources[0]] + WithoutId(sources[1..], b))[1..] == WithoutId(sources[1..], b);
    }
  }

  /** Removing the id of a record just appended under a fresh id gives back the list before the append. */
  lemma WithoutIdAppended(sources: seq<Source>, added: Source)
    requires forall j :: 0 <= j < |sources| ==> sources[j].id != added.id
    ensures WithoutId(sources + [added], added.id) == sources
  {
    var keep := (s: Source) => s.id != added.id;
    Seqs.FilterSnoc(sources, added, keep);
    Seqs.FilterKeepsAll(sources, keep);
  }

  /** One step of the comprehension. */
  lemma WithoutIdCons(sources: seq<Source>, id: string)
    requires sources != []
    ensures WithoutId(sources, id) == (if sources[0].id != id then [sources[0]] else []) + WithoutId(sources[1..], id)
  {
  }

  /**
   * The index of the first source whose vector-store delete fails, when
   * `storeDelete(name)` is the outcome of `collection.delete(where={"source": name})`.
   */
  function FirstFailedDelete(sources: seq<Source>, storeDelete: string -> Outcome<string>): (r: Option<nat>)
    ensures r.Some? ==> r.value < |sources| && storeDelete(sources[r.value].name).Fail?
                        && forall j :: 0 <= j < r.value ==> storeDelete(sources[j].name).Pass?
    ensures r.None? <==> forall j :: 0 <= j < |sources| ==> storeDelete(sources[j].name).Pass?
  {
    Seqs.FirstWhere(sources, (s: Source) => storeDelete(s.name).Fail?)
  }
}
