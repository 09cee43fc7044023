/**
 * The scene-list updaters of App.tsx and src/App.tsx, which agree line for
 * line: picking the active scene, applying a partial update to it,
 * appending a new scene, and the guarded delete. Each is the pure function
 * the source passes to `setScenes` or computes during render.
 */
module Scenes {

  import opened Types
  import opened Text
  import opened Records

  const InitialScene: Scene := Scene("scene-1", "Chapter 1: The Glitch", "", "", None, 1, None)

  /** A `Partial<Scene>` as the source builds them: a field that is present
      replaces the scene's, an absent one leaves it alone. */
  datatype Patch = Patch(
    title: Option<string>,
    beatSheet: Option<string>,
    content: Option<string>,
    imageUrl: Option<string>,
    lastAgent: Option<SceneAuthor>)

  /** `{ ...s, ...updates }`. */
  function ApplyPatch(s: Scene, p: Patch): (r: Scene)
    ensures r.id == s.id && r.version == s.version
    ensures p.title.Some? ==> r.title == p.title.value
    ensures p.title.None? ==> r.title == s.title
    ensures p.beatSheet.Some? ==> r.beatSheet == p.beatSheet.value
    ensures p.beatSheet.None? ==> r.beatSheet == s.beatSheet
    ensures p.content.Some? ==> r.content == p.content.value
    ensures p.content.None? ==> r.content == s.content
    ensures p.imageUrl.Some? ==> r.imageUrl == p.imageUrl
    ensures p.imageUrl.None? ==> r.imageUrl == s.imageUrl
    ensures p.lastAgent.Some? ==> r.lastAgent == p.lastAgent
    ensures p.lastAgent.None? ==> r.lastAgent == s.lastAgent
  {
    Scene(s.id, p.title.GetOr(s.title), p.beatSheet.GetOr(s.beatSheet), p.content.GetOr(s.content),
      if p.imageUrl.Some? then p.imageUrl else s.imageUrl,
      s.version,
      if p.lastAgent.Some? then p.lastAgent else s.lastAgent)
  }

  /** `scenes.find(s => s.id === activeSceneId) || scenes[0]`. */
  function ActiveScene(scenes: seq<Scene>, activeId: string): (r: Scene)
    requires |scenes| > 0
    ensures HasId(scenes, activeId, SceneId) ==>
      exists k :: 0 <= k < |scenes| && r == scenes[k] && r.id == activeId
                  && forall m :: 0 <= m < k ==> scenes[m].id != activeId
    ensures !HasId(scenes, activeId, SceneId) ==> r == scenes[0]
  {
    match FindId(scenes, activeId, SceneId)
    case Some(k) => scenes[k]
    case None => scenes[0]
  }

  /** updateActiveScene: the scene whose id is the active id gets the patch;
      every other scene, and the length and order of the list, stay. */
  function UpdateActiveScene(scenes: seq<Scene>, activeId: string, p: Patch): (r: seq<Scene>)
    ensures |r| == |scenes|
    ensures forall i :: 0 <= i < |scenes| && scenes[i].id != activeId ==> r[i] == scenes[i]
    ensures forall i :: 0 <= i < |scenes| && scenes[i].id == activeId ==> r[i] == ApplyPatch(scenes[i], p)
    ensures forall i :: 0 <= i < |scenes| ==> r[i].id == scenes[i].id
  {
    UpdateWhere(scenes, activeId, SceneId, s => ApplyPatch(s, p))
  }

  /** An active id that names no scene makes every update a no-op. */
  lemma UpdateWithoutActiveScene(scenes: seq<Scene>, activeId: string, p: Patch)
    requires !HasId(scenes, activeId, SceneId)
    ensures UpdateActiveScene(scenes, activeId, p) == scenes
  {
    UpdateWhereAbsent(scenes, activeId, SceneId, s => ApplyPatch(s, p));
  }

  /** With distinct ids, the update touches exactly the active scene, which
      is the one `ActiveScene` shows. */
  lemma UpdateTouchesActiveScene(scenes: seq<Scene>, activeId: string, p: Patch)
    requires UniqueIds(scenes, SceneId) && HasId(scenes, activeId, SceneId)
    ensures exists k :: (0 <= k < |scenes| && scenes[k] == ActiveScene(scenes, activeId)
                         && UpdateActiveScene(scenes, activeId, p) == scenes[k := ApplyPatch(scenes[k], p)])
  {
    var k := FindId(scenes, activeId, SceneId).value;
    UpdateWhereOne(scenes, k, SceneId, s => ApplyPatch(s, p));
  }

  /** An update keeps the ids, so it keeps them distinct. */
  lemma UpdateKeepsIdsUnique(scenes: seq<Scene>, activeId: string, p: Patch)
    requires UniqueIds(scenes, SceneId)
    ensures UniqueIds(UpdateActiveScene(scenes, activeId, p), SceneId)
  {
  }

  /** The scene handleAddScene creates: `Scene n+1` for a list of n scenes. */
  function NewScene(id: string, count: nat): Scene {
    Scene(id, "Scene " + NatToString(count + 1), "", "", None, 1, None)
  }

  /** handleAddScene's list update: one new scene at the end, titled after
      the new length, blank, at version 1 and written by nobody; with a
      fresh id, ids stay distinct and the new id selects the new scene. */
  function AddScene(scenes: seq<Scene>, freshId: string): (r: seq<Scene>)
    requires !HasId(scenes, freshId, SceneId)
    ensures |r| == |scenes| + 1 && r[..|scenes|] == scenes
    ensures r[|scenes|] == Scene(freshId, "Scene " + NatToString(|scenes| + 1), "", "", None, 1, None)
    ensures UniqueIds(scenes, SceneId) ==> UniqueIds(r, SceneId)
    ensures ActiveScene(r, freshId) == r[|scenes|]
  {
    var r := scenes + [NewScene(freshId, |scenes|)];
    assert r[..|scenes|] == scenes;
    assert forall k :: 0 <= k < |scenes| ==> r[k] == scenes[k];
    assert SceneId(r[|scenes|]) == freshId;
    assert FindId(r, freshId, SceneId) == Some(|scenes|);
    r
  }

  /** The delete handler: `scenes.filter(s => s.id !== id)`, but only when
      there is more than one scene. */
  function DeleteScene(scenes: seq<Scene>, id: string): (r: seq<Scene>)
    ensures |scenes| <= 1 ==> r == scenes
    ensures |scenes| > 1 ==> (forall i :: 0 <= i < |r| ==> r[i].id != id && r[i] in scenes)
    ensures |scenes| > 1 ==> (forall i :: 0 <= i < |scenes| && scenes[i].id != id ==> scenes[i] in r)
    ensures |scenes| > 1 ==> Subsequence(r, scenes)
    ensures |scenes| > 1 ==> |r| == |scenes| - CountId(scenes, id, SceneId)
  {
    if |scenes| > 1 then RemoveWhere(scenes, id, SceneId) else scenes
  }

  /** Deleting a scene just added to a non-empty list, under its fresh id,
      gives back the list as it was. */
  lemma AddThenDeleteScene(scenes: seq<Scene>, freshId: string)
    requires |scenes| > 0 && !HasId(scenes, freshId, SceneId)
    ensures DeleteScene(AddScene(scenes, freshId), freshId) == scenes
  {
    var added := NewScene(freshId, |scenes|);
    assert AddScene(scenes, freshId) == scenes + [added];
    RemoveWhereAppend(scenes, added, freshId, SceneId);
    RemoveWhereAbsent(scenes, freshId, SceneId);
  }

  /** With distinct ids the delete guard keeps the list non-empty, and the
      ids stay distinct. */
  lemma DeleteKeepsScenes(scenes: seq<Scene>, id: string)
    requires |scenes| > 0 && UniqueIds(scenes, SceneId)
    ensures |DeleteScene(scenes, id)| > 0
    ensures UniqueIds(DeleteScene(scenes, id), SceneId)
    ensures |DeleteScene(scenes, id)| >= |scenes| - 1
  {
    if |scenes| > 1 {
      CountIdUnique(scenes, id, SceneId);
      RemoveKeepsUnique(scenes, id, SceneId);
    }
  }

  /** The guard counts scenes, not matches: two scenes sharing an id are
      deleted together, emptying the list. */
  lemma SharedIdEmptiesList(s: Scene)
    ensures DeleteScene([s, s], s.id) == []
  {
  }

  /** Deleting the active scene leaves the active id naming no scene: the
      view falls back to the first scene, and every later update through
      the active id is lost. */
  lemma DeletedActiveSceneDangles(scenes: seq<Scene>, activeId: string, p: Patch)
    requires |scenes| > 1
    ensures var r := DeleteScene(scenes, activeId);
      !HasId(r, activeId, SceneId)
      && (|r| > 0 ==> ActiveScene(r, activeId) == r[0])
      && UpdateActiveScene(r, activeId, p) == r
  {
    var r := DeleteScene(scenes, activeId);
    UpdateWithoutActiveScene(r, activeId, p);
  }
}
