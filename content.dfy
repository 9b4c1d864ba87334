/**
  The content slice: Quran reading progress and the list of saved duas,
  with the slice's four reducers as functions from the old state to the new one.
*/
module Content {
  import opened Wrappers

  datatype Dua = Dua(id: string, text: string, category: string)

  /** Juz, surah and ayah numbers as the user entered them; no range is enforced. */
  datatype QuranProgress = QuranProgress(currentJuz: int, lastSurah: int, lastAyah: int)

  datatype ContentState = ContentState(quranProgress: QuranProgress, duaList: seq<Dua>)

  /** A partial progress record: None where the key is absent. */
  datatype ProgressPatch = ProgressPatch(currentJuz: Option<int>, lastSurah: Option<int>, lastAyah: Option<int>)

  /** The actions the slice accepts, one per reducer. */
  datatype Action =
    | UpdateQuranProgressAction(patch: ProgressPatch)
    | AddDuaAction(dua: Dua)
    | RemoveDuaAction(id: string)
    | SetContentAction(content: ContentState)

  /** The names of the slice's fields. */
  datatype Field = CurrentJuz | LastSurah | LastAyah | DuaList

  /** The fields on which two content values differ. */
  function Diff(s: ContentState, t: ContentState): (fs: set<Field>)
    ensures fs == {} <==> s == t
  {
    (if s.quranProgress.currentJuz != t.quranProgress.currentJuz then {CurrentJuz} else {}) +
    (if s.quranProgress.lastSurah != t.quranProgress.lastSurah then {LastSurah} else {}) +
    (if s.quranProgress.lastAyah != t.quranProgress.lastAyah then {LastAyah} else {}) +
    (if s.duaList != t.duaList then {DuaList} else {})
  }

  /** The progress fields whose keys a patch carries. */
  function Patched(p: ProgressPatch): set<Field> {
    (if p.currentJuz.Some? then {CurrentJuz} else {}) +
    (if p.lastSurah.Some? then {LastSurah} else {}) +
    (if p.lastAyah.Some? then {LastAyah} else {})
  }

  /** The state the slice starts from on a fresh install. */
  function Initial(): (r: ContentState)
    ensures r.quranProgress.currentJuz == 1 && r.quranProgress.lastSurah == 1 && r.quranProgress.lastAyah == 1
    ensures r.duaList == []
  {
    ContentState(QuranProgress(1, 1, 1), [])
  }

  /** No entry of `list` carries `id`. */
  predicate IdAbsent(list: seq<Dua>, id: string) {
    forall i :: 0 <= i < |list| ==> list[i].id != id
  }

  /**
    The `filter` that keeps the entries whose id differs from `id`: every such
    entry stays, every entry with that id goes, and nothing new appears.
  */
  function WithoutId(list: seq<Dua>, id: string): (r: seq<Dua>)
    ensures |r| <= |list|
    ensures IdAbsent(r, id)
    ensures forall d :: d in r <==> d in list && d.id != id
  {
    if list == [] then []
    else (if list[0].id == id then [] else [list[0]]) + WithoutId(list[1..], id)
  }

  /** `updateQuranProgress`: the spread `{ ...state.quranProgress, ...patch }`, unclamped. */
  function UpdateQuranProgress(s: ContentState, p: ProgressPatch): (r: ContentState)
    ensures Diff(s, r) <= Patched(p)
    ensures p.currentJuz.Some? ==> r.quranProgress.currentJuz == p.currentJuz.value
    ensures p.lastSurah.Some? ==> r.quranProgress.lastSurah == p.lastSurah.value
    ensures p.lastAyah.Some? ==> r.quranProgress.lastAyah == p.lastAyah.value
  {
    s.(quranProgress := QuranProgress(
      p.currentJuz.GetOr(s.quranProgress.currentJuz),
      p.lastSurah.GetOr(s.quranProgress.lastSurah),
      p.lastAyah.GetOr(s.quranProgress.lastAyah)))
  }

  /** `addDua`: appends the entry at the end, whatever its id. */
  function AddDua(s: ContentState, d: Dua): (r: ContentState)
    ensures Diff(s, r) == {DuaList}
    ensures |r.duaList| == |s.duaList| + 1 && r.duaList[..|s.duaList|] == s.duaList
    ensures r.duaList[|s.duaList|] == d
  {
    s.(duaList := s.duaList + [d])
  }

  /** `removeDua`: drops every entry with the given id. */
  function RemoveDua(s: ContentState, id: string): (r: ContentState)
    ensures Diff(s, r) <= {DuaList}
    ensures IdAbsent(r.duaList, id)
    ensures forall d :: d in r.duaList <==> d in s.duaList && d.id != id
  {
    s.(duaList := WithoutId(s.duaList, id))
  }

  /** The slice reducer; `setContent` replaces the whole state. */
  function Reduce(s: ContentState, a: Action): (r: ContentState)
    ensures a.SetContentAction? ==> r == a.content
    ensures a.UpdateQuranProgressAction? ==> Diff(s, r) <= Patched(a.patch)
    ensures a.AddDuaAction? || a.RemoveDuaAction? ==> Diff(s, r) <= {DuaList}
  {
    match a
    case UpdateQuranProgressAction(p) => UpdateQuranProgress(s, p)
    case AddDuaAction(d) => AddDua(s, d)
    case RemoveDuaAction(id) => RemoveDua(s, id)
    case SetContentAction(c) => c
  }

  /** Filtering keeps relative order: it distributes over concatenation. */
  lemma {:induction false} WithoutIdAppend(a: seq<Dua>, b: seq<Dua>, id: string)
    ensures WithoutId(a + b, id) == WithoutId(a, id) + WithoutId(b, id)
    decreases |a|
  {
    if a == [] {
      assert a + b == b;
    } else {
      assert (a + b)[0] == a[0];
      assert (a + b)[1..] == a[1..] + b;
      WithoutIdAppend(a[1..], b, id);
    }
  }

  /** Removing an id leaves the list unchanged exactly when no entry carries it. */
  lemma {:induction false} WithoutIdUnchanged(list: seq<Dua>, id: string)
    ensures WithoutId(list, id) == list <==> IdAbsent(list, id)
    decreases |list|
  {
    if list != [] {
      WithoutIdUnchanged(list[1..], id);
      if IdAbsent(list, id) {
        assert IdAbsent(list[1..], id) by {
          forall i | 0 <= i < |list[1..]| ensures list[1..][i].id != id {
            assert list[1..][i] == list[i + 1];
          }
        }
        assert list == [list[0]] + list[1..];
      } else if list[0].id == id {
        assert |WithoutId(list, id)| < |list|;
      } else {
        var i :| 0 <= i < |list| && list[i].id == id;
        assert list[i] == list[1..][i - 1];
        assert !IdAbsent(list[1..], id);
        assert WithoutId(list, id)[1..] == WithoutId(list[1..], id);
      }
    }
  }

  /** Each dua occurs in the result as often as in the list, unless its id was removed. */
  lemma {:induction false} WithoutIdCounts(list: seq<Dua>, id: string, d: Dua)
    ensures multiset(WithoutId(list, id))[d] == if d.id == id then 0 else multiset(list)[d]
    decreases |list|
  {
    if list != [] {
      WithoutIdCounts(list[1..], id, d);
      assert list == [list[0]] + list[1..];
    }
  }

  /** Removal is idempotent. */
  lemma WithoutIdIdempotent(list: seq<Dua>, id: string)
    ensures WithoutId(WithoutId(list, id), id) == WithoutId(list, id)
  {
    WithoutIdUnchanged(WithoutId(list, id), id);
  }

  /** Adding a dua whose id is new and then removing that id restores the state. */
  lemma AddThenRemove(s: ContentState, d: Dua)
    requires IdAbsent(s.duaList, d.id)
    ensures Reduce(Reduce(s, AddDuaAction(d)), RemoveDuaAction(d.id)) == s
  {
    WithoutIdAppend(s.duaList, [d], d.id);
    WithoutIdUnchanged(s.duaList, d.id);
    assert WithoutId([d], d.id) == [];
  }

  /** `addDua` does not check ids: adding a dua whose id is taken yields two entries with that id. */
  lemma AddDuaKeepsDuplicates(s: ContentState, d: Dua)
    requires !IdAbsent(s.duaList, d.id)
    ensures var r := Reduce(s, AddDuaAction(d));
      exists i, j :: 0 <= i < j < |r.duaList| && r.duaList[i].id == r.duaList[j].id == d.id
  {
    var i :| 0 <= i < |s.duaList| && s.duaList[i].id == d.id;
    var r := Reduce(s, AddDuaAction(d));
    assert r.duaList[i].id == r.duaList[|s.duaList|].id == d.id;
  }
}
