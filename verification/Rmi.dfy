/** The map of images that `crictl rmi` removes: named ones, all or unused ones, minus those in use. */
module Rmi {
  import opened Wrappers
  import opened Images

  /** Whether one of the images is to be added by --all or --prune under the key `id`. */
  predicate Listed(images: seq<Image>, prune: bool, id: string) {
    exists i :: 0 <= i < |images| && images[i].id == id && !(prune && images[i].pinned)
  }

  /** Whether the image of one of the containers resolved to `id`. */
  predicate InUse(resolved: seq<Option<string>>, id: string) {
    Some(id) in resolved
  }

  lemma ListedStep(images: seq<Image>, prune: bool, i: nat)
    requires i < |images|
    ensures forall id :: Listed(images[..i + 1], prune, id) <==>
              Listed(images[..i], prune, id) || (images[i].id == id && !(prune && images[i].pinned))
  {
    var before, after := images[..i], images[..i + 1];
    assert after == before + [images[i]];
    forall id ensures Listed(after, prune, id) <==>
                        Listed(before, prune, id) || (images[i].id == id && !(prune && images[i].pinned))
    {
      if Listed(before, prune, id) {
        var j :| 0 <= j < i && before[j].id == id && !(prune && before[j].pinned);
        assert after[j] == before[j];
      } else if images[i].id == id && !(prune && images[i].pinned) {
        assert after[i] == images[i];
      }
      if Listed(after, prune, id) {
        var j :| 0 <= j < i + 1 && after[j].id == id && !(prune && after[j].pinned);
        assert j < i ==> before[j] == after[j];
      }
    }
  }

  /**
   The three passes over arguments, images and containers. `resolved` has the answer to the image status request for
   each container: the id of its image, which is empty when the image is not there, or None if the request failed.
   */
  method SelectImages(args: seq<string>, all: bool, prune: bool, images: seq<Image>, resolved: seq<Option<string>>)
    returns (ids: map<string, bool>)
    ensures forall id :: id in ids && ids[id] <==>
              && (id in args || ((all || prune) && Listed(images, prune, id)))
              && !(prune && InUse(resolved, id))
    ensures forall id :: id in ids <==>
              || id in args
              || ((all || prune) && Listed(images, prune, id))
              || (prune && InUse(resolved, id))
  {
    ids := map[];
    for i := 0 to |args|
      invariant forall id :: id in ids <==> id in args[..i]
      invariant forall id :: id in ids ==> ids[id]
    {
      assert args[..i + 1] == args[..i] + [args[i]];
      ids := ids[args[i] := true];
    }
    assert args[..|args|] == args;
    if all || prune {
      for i := 0 to |images|
        invariant forall id :: id in ids <==> id in args || Listed(images[..i], prune, id)
        invariant forall id :: id in ids ==> ids[id]
      {
        ListedStep(images, prune, i);
        if prune && images[i].pinned {
          continue;
        }
        ids := ids[images[i].id := true];
      }
      assert images[..|images|] == images;
    }
    ghost var selected := ids;
    if prune {
      for i := 0 to |resolved|
        invariant forall id :: id in ids <==> id in selected || InUse(resolved[..i], id)
        invariant forall id :: id in ids ==> (ids[id] <==> !InUse(resolved[..i], id))
      {
        assert resolved[..i + 1] == resolved[..i] + [resolved[i]];
        var imageStatus := resolved[i];
        if imageStatus.None? {
          continue;
        }
        ids := ids[imageStatus.value := false];
      }
      assert resolved[..|resolved|] == resolved;
    }
  }
}
