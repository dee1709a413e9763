/** The scene host (`SceneManager`) as the persistence engine sees it: a table of
    scenes in index order, the two load modes and the load requests it receives. */
module Scenes {
  import opened Outcomes
  import Seqs

  datatype LoadSceneMode = Single | Additive

  /** One slot of the scene table (`SceneManager.GetSceneAt(i)`). */
  datatype SceneEntry = SceneEntry(name: string, isLoaded: bool)

  /** One call of `SceneManager.LoadScene(name, mode)`. */
  datatype SceneRequest = SceneRequest(name: string, mode: LoadSceneMode)

  predicate Loaded(e: SceneEntry) { e.isLoaded }

  /** The names of the loaded scenes, in scene-index order. */
  function LoadedNames(table: seq<SceneEntry>): (r: seq<string>)
    ensures |r| == |Seqs.Indices(table, Loaded)|
    ensures forall k :: 0 <= k < |r| ==> r[k] == table[Seqs.Indices(table, Loaded)[k]].name
    decreases |table|
  {
    if table == [] then []
    else
      var init := LoadedNames(table[..|table| - 1]);
      ghost var ix := Seqs.Indices(table[..|table| - 1], Loaded);
      assert forall k :: 0 <= k < |ix| ==> table[..|table| - 1][ix[k]] == table[ix[k]];
      if table[|table| - 1].isLoaded then init + [table[|table| - 1].name] else init
  }

  /** `SceneManager.GetSceneByName`: the first scene of that name, if any. */
  function SceneNamed(table: seq<SceneEntry>, name: string): (r: Option<SceneEntry>)
    ensures r.Some? ==> r.value in table && r.value.name == name
    ensures r.None? ==> forall i :: 0 <= i < |table| ==> table[i].name != name
    decreases |table|
  {
    if table == [] then None
    else if table[0].name == name then Some(table[0])
    else SceneNamed(table[1..], name)
  }

  /** `GetSceneByName(name).isLoaded`; a name not in the table gives an invalid,
      unloaded scene. */
  predicate IsLoaded(table: seq<SceneEntry>, name: string)
  {
    var e := SceneNamed(table, name);
    e.Some? && e.value.isLoaded
  }

  /** A scene whose first entry is loaded is among the names a save records. */
  lemma {:induction false} LoadedSceneIsRecorded(table: seq<SceneEntry>, name: string)
    requires IsLoaded(table, name)
    ensures name in LoadedNames(table)
  {
    var e := SceneNamed(table, name).value;
    var i :| 0 <= i < |table| && table[i] == e;
    var k :| 0 <= k < |Seqs.Indices(table, Loaded)| && Seqs.Indices(table, Loaded)[k] == i;
    assert LoadedNames(table)[k] == name;
  }
}
