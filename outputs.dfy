/**
 * Artifact collection and result selection at the end of `handler`: every
 * image referenced by the history record's `outputs` is fetched and encoded,
 * in node order and then image order, and the result is the list of them or,
 * when there are none, the "No images generated" report.
 */
module Outputs {
  import opened Wrappers
  import opened Protocol

  /**
   * One value of `history["outputs"]`, in the dictionary's iteration order:
   * `images` is None when the node's output has no "images" key.
   */
  datatype NodeOutput = NodeOutput(images: Option<seq<ImageRef>>)

  /** One entry of the returned `images` list: `{"name": ..., "data": ...}`. */
  datatype OutputImage = OutputImage(name: string, data: string)

  /** What `handler` returns for a job that completed. */
  datatype JobResult =
    | Images(images: seq<OutputImage>)  // {"images": [...]}
    | ErrorReport(message: string)      // {"error": message}

  const NoImagesMessage: string := "No images generated"

  /** The images a node contributes: none without an "images" key. */
  function NodeImages(node: NodeOutput): seq<ImageRef> {
    match node.images
    case None => []
    case Some(imgs) => imgs
  }

  /** All image references of a record, node by node, each node's in its own order. */
  function References(outputs: seq<NodeOutput>): seq<ImageRef>
  {
    if outputs == [] then [] else NodeImages(outputs[0]) + References(outputs[1..])
  }

  /** Independent count: the sum, over nodes with an "images" key, of that list's length. */
  function ImageCount(outputs: seq<NodeOutput>): nat
  {
    if outputs == [] then 0
    else
      var last := match outputs[|outputs| - 1].images
        case None => 0
        case Some(imgs) => |imgs|;
      ImageCount(outputs[..|outputs| - 1]) + last
  }

  lemma {:induction false} ReferencesAppend(a: seq<NodeOutput>, b: seq<NodeOutput>)
    ensures References(a + b) == References(a) + References(b)
  {
    if a != [] {
      assert (a + b)[1..] == a[1..] + b;
      ReferencesAppend(a[1..], b);
    } else {
      assert a + b == b;
    }
  }

  /** The number of collected references is the per-node sum of image-list lengths. */
  lemma {:induction false} ReferencesCount(outputs: seq<NodeOutput>)
    ensures |References(outputs)| == ImageCount(outputs)
  {
    if outputs != [] {
      var n := |outputs| - 1;
      assert outputs == outputs[..n] + [outputs[n]];
      ReferencesAppend(outputs[..n], [outputs[n]]);
      assert References([outputs[n]]) == NodeImages(outputs[n]) + References([]);
      ReferencesCount(outputs[..n]);
    }
  }

  /** A node without an "images" key contributes nothing, wherever it stands. */
  lemma NodeWithoutImagesAddsNothing(before: seq<NodeOutput>, after: seq<NodeOutput>)
    ensures References(before + [NodeOutput(None)] + after) == References(before + after)
  {
    ReferencesAppend(before + [NodeOutput(None)], after);
    ReferencesAppend(before, [NodeOutput(None)]);
    ReferencesAppend(before, after);
    assert References([NodeOutput(None)]) == [];
  }

  /**
   * Order: image `k` of node `n` sits right after the images of the nodes
   * before `n` and the images of `n` before `k`.
   */
  lemma ReferencesOrder(outputs: seq<NodeOutput>, n: nat, k: nat)
    requires n < |outputs| && outputs[n].images.Some? && k < |outputs[n].images.value|
    ensures ImageCount(outputs[..n]) + k < |References(outputs)|
    ensures References(outputs)[ImageCount(outputs[..n]) + k] == outputs[n].images.value[k]
  {
    assert outputs == outputs[..n] + ([outputs[n]] + outputs[n + 1..]);
    ReferencesAppend(outputs[..n], [outputs[n]] + outputs[n + 1..]);
    assert ([outputs[n]] + outputs[n + 1..])[1..] == outputs[n + 1..];
    ReferencesCount(outputs[..n]);
  }

  /** Flattening a node followed by more nodes: that node's images come first. */
  lemma ReferencesCons(node: NodeOutput, rest: seq<NodeOutput>)
    ensures References([node] + rest) == NodeImages(node) + References(rest)
  {
    assert ([node] + rest)[1..] == rest;
  }

  /** Where node `n` stands in the flattened references. */
  lemma {:induction false} ReferencesSplit(outputs: seq<NodeOutput>, n: nat)
    requires n < |outputs|
    ensures References(outputs) == References(outputs[..n]) + NodeImages(outputs[n]) + References(outputs[n + 1..])
    ensures References(outputs[..n + 1]) == References(outputs[..n]) + NodeImages(outputs[n])
  {
    var pre, node, post := outputs[..n], outputs[n], outputs[n + 1..];
    assert outputs == pre + ([node] + post);
    ReferencesCons(node, post);
    ReferencesAppend(pre, [node] + post);
    assert outputs[..n + 1] == pre + [node];
    ReferencesCons(node, []);
    assert [node] + [] == [node];
    ReferencesAppend(pre, [node]);
  }

  /** The entry for an image whose bytes were fetched. */
  function Entry(ref: ImageRef, raw: Bytes, encode: Bytes -> string): OutputImage {
    OutputImage(ref.filename, encode(raw))
  }

  /** Reference definition: fetch each reference in turn, stopping at the first failure. */
  function Collect(refs: seq<ImageRef>, fetch: ImageRef -> Option<Bytes>, encode: Bytes -> string)
    : Result<seq<OutputImage>, ImageRef>
  {
    if refs == [] then Ok([])
    else match fetch(refs[0])
      case None => Err(refs[0])
      case Some(raw) =>
        match Collect(refs[1..], fetch, encode)
        case Err(r) => Err(r)
        case Ok(rest) => Ok([Entry(refs[0], raw, encode)] + rest)
  }

  /**
   * Collection succeeds exactly when every fetch does, and then yields one
   * entry per reference, in order, named by its filename and holding the
   * encoding of the bytes fetched for it; otherwise it fails on the first
   * reference whose fetch failed.
   */
  lemma {:induction false} CollectSpec(refs: seq<ImageRef>, fetch: ImageRef -> Option<Bytes>, encode: Bytes -> string)
    ensures Collect(refs, fetch, encode).Ok? <==> forall j :: 0 <= j < |refs| ==> fetch(refs[j]).Some?
    ensures Collect(refs, fetch, encode).Ok? ==>
      var xs := Collect(refs, fetch, encode).value;
      |xs| == |refs| &&
      forall j :: 0 <= j < |refs| ==> xs[j] == Entry(refs[j], fetch(refs[j]).value, encode)
    ensures Collect(refs, fetch, encode).Err? ==>
      exists k :: 0 <= k < |refs| && refs[k] == Collect(refs, fetch, encode).error &&
        fetch(refs[k]).None? && forall j :: 0 <= j < k ==> fetch(refs[j]).Some?
  {
    if refs != [] && fetch(refs[0]).Some? {
      CollectSpec(refs[1..], fetch, encode);
      forall j | 1 <= j < |refs| ensures refs[j] == refs[1..][j - 1] {}
      if Collect(refs, fetch, encode).Err? {
        var k :| 0 <= k < |refs[1..]| && refs[1..][k] == Collect(refs[1..], fetch, encode).error &&
          fetch(refs[1..][k]).None? && forall j :: 0 <= j < k ==> fetch(refs[1..][j]).Some?;
        assert refs[k + 1] == Collect(refs, fetch, encode).error;
      }
    }
  }

  /** A failed fetch after successful ones ends collection with that reference. */
  lemma {:induction false} CollectFirstFailure(refs: seq<ImageRef>, k: nat, fetch: ImageRef -> Option<Bytes>, encode: Bytes -> string)
    requires k < |refs| && fetch(refs[k]).None?
    requires forall j :: 0 <= j < k ==> fetch(refs[j]).Some?
    ensures Collect(refs, fetch, encode) == Err(refs[k])
  {
    if k > 0 {
      assert forall j :: 0 <= j < k - 1 ==> refs[1..][j] == refs[j + 1];
      CollectFirstFailure(refs[1..], k - 1, fetch, encode);
    }
  }

  /** Collecting two runs of references is collecting the first, then the second. */
  lemma {:induction false} CollectAppend(a: seq<ImageRef>, b: seq<ImageRef>, fetch: ImageRef -> Option<Bytes>, encode: Bytes -> string)
    ensures Collect(a, fetch, encode).Err? ==> Collect(a + b, fetch, encode) == Collect(a, fetch, encode)
    ensures Collect(a, fetch, encode).Ok? && Collect(b, fetch, encode).Err? ==>
      Collect(a + b, fetch, encode) == Collect(b, fetch, encode)
    ensures Collect(a, fetch, encode).Ok? && Collect(b, fetch, encode).Ok? ==>
      Collect(a + b, fetch, encode) == Ok(Collect(a, fetch, encode).value + Collect(b, fetch, encode).value)
  {
    if a == [] {
      assert a + b == b;
      if Collect(b, fetch, encode).Ok? {
        assert [] + Collect(b, fetch, encode).value == Collect(b, fetch, encode).value;
      }
    } else {
      assert (a + b)[0] == a[0] && (a + b)[1..] == a[1..] + b;
      CollectAppend(a[1..], b, fetch, encode);
      if fetch(a[0]).Some? && Collect(a[1..], fetch, encode).Ok? && Collect(b, fetch, encode).Ok? {
        var x, xs, ys := Entry(a[0], fetch(a[0]).value, encode), Collect(a[1..], fetch, encode).value, Collect(b, fetch, encode).value;
        assert [x] + (xs + ys) == ([x] + xs) + ys;
      }
    }
  }

  /** The inner loop of `handler`: fetch and encode one node's images, in order. */
  method CollectNode(imgs: seq<ImageRef>, fetch: ImageRef -> Option<Bytes>, encode: Bytes -> string)
    returns (r: Result<seq<OutputImage>, ImageRef>, fetches: nat)
    ensures r == Collect(imgs, fetch, encode)
    ensures r.Ok? ==> fetches == |imgs|
    ensures r.Err? ==>
      && 1 <= fetches <= |imgs|
      && imgs[fetches - 1] == r.error
      && fetch(r.error).None?
      && forall j :: 0 <= j < fetches - 1 ==> fetch(imgs[j]).Some?
  {
    var entries: seq<OutputImage> := [];
    fetches := 0;
    for k := 0 to |imgs|
      invariant fetches == |entries| == k
      invariant forall j :: 0 <= j < k ==>
        fetch(imgs[j]).Some? && entries[j] == Entry(imgs[j], fetch(imgs[j]).value, encode)
    {
      var raw := fetch(imgs[k]);
      fetches := fetches + 1;
      if raw.None? {
        CollectFirstFailure(imgs, k, fetch, encode);
        return Err(imgs[k]), fetches;
      }
      entries := entries + [Entry(imgs[k], raw.value, encode)];
    }
    CollectSpec(imgs, fetch, encode);
    assert Collect(imgs, fetch, encode).value == entries;
    r := Ok(entries);
  }

  /**
   * The collection loop of `handler`: for each node with an "images" key, for
   * each of its images, fetch the bytes and append `{name, data}`. Also returns
   * how many fetches it issued: all M references when they all succeed.
   */
  method CollectImages(outputs: seq<NodeOutput>, fetch: ImageRef -> Option<Bytes>, encode: Bytes -> string)
    returns (r: Result<seq<OutputImage>, ImageRef>, fetches: nat)
    ensures r == Collect(References(outputs), fetch, encode)
    ensures r.Ok? ==> fetches == |r.value| == ImageCount(outputs)
    ensures r.Err? ==>
      && 1 <= fetches <= |References(outputs)|
      && References(outputs)[fetches - 1] == r.error
      && fetch(r.error).None?
      && forall j :: 0 <= j < fetches - 1 ==> fetch(References(outputs)[j]).Some?
  {
    var outputImages: seq<OutputImage> := [];
    fetches := 0;
    for n := 0 to |outputs|
      invariant fetches == |References(outputs[..n])|
      invariant Collect(References(outputs[..n]), fetch, encode) == Ok(outputImages)
    {
      if outputs[n].images.None? {
        CollectStep(outputs, n, fetch, encode);
        assert outputImages + [] == outputImages;
        continue;
      }
      var node, nodeFetches := CollectNode(outputs[n].images.value, fetch, encode);
      if node.Err? {
        CollectStepFails(outputs, n, nodeFetches - 1, fetch, encode);
        return Err(node.error), fetches + nodeFetches;
      }
      CollectStep(outputs, n, fetch, encode);
      outputImages := outputImages + node.value;
      fetches := fetches + nodeFetches;
    }
    assert outputs[..|outputs|] == outputs;
    ReferencesCount(outputs);
    CollectSpec(References(outputs), fetch, encode);
    r := Ok(outputImages);
  }

  /** One more node whose images all fetch extends the collection by that node's entries. */
  lemma CollectStep(outputs: seq<NodeOutput>, n: nat, fetch: ImageRef -> Option<Bytes>, encode: Bytes -> string)
    requires n < |outputs|
    requires Collect(References(outputs[..n]), fetch, encode).Ok?
    requires Collect(NodeImages(outputs[n]), fetch, encode).Ok?
    ensures |References(outputs[..n + 1])| == |References(outputs[..n])| + |NodeImages(outputs[n])|
    ensures Collect(References(outputs[..n + 1]), fetch, encode) ==
      Ok(Collect(References(outputs[..n]), fetch, encode).value + Collect(NodeImages(outputs[n]), fetch, encode).value)
  {
    ReferencesSplit(outputs, n);
    CollectAppend(References(outputs[..n]), NodeImages(outputs[n]), fetch, encode);
  }

  /** A failure at image `k` of node `n`, after the earlier nodes collected, fails the whole collection there. */
  lemma CollectStepFails(outputs: seq<NodeOutput>, n: nat, k: nat, fetch: ImageRef -> Option<Bytes>, encode: Bytes -> string)
    requires n < |outputs|
    requires Collect(References(outputs[..n]), fetch, encode).Ok?
    requires k < |NodeImages(outputs[n])| && Collect(NodeImages(outputs[n]), fetch, encode) == Err(NodeImages(outputs[n])[k])
    requires forall j :: 0 <= j < k ==> fetch(NodeImages(outputs[n])[j]).Some?
    ensures Collect(References(outputs), fetch, encode) == Err(NodeImages(outputs[n])[k])
    ensures var i := |References(outputs[..n])| + k;
      && i < |References(outputs)|
      && References(outputs)[i] == NodeImages(outputs[n])[k]
      && forall j :: 0 <= j < i ==> fetch(References(outputs)[j]).Some?
  {
    ReferencesSplit(outputs, n);
    FailureInMiddle(References(outputs[..n]), NodeImages(outputs[n]), References(outputs[n + 1..]), k, fetch, encode);
  }

  /** A failure inside one node's images, after the earlier ones collected: where it stands among all references. */
  lemma FailureInMiddle(done: seq<ImageRef>, imgs: seq<ImageRef>, rest: seq<ImageRef>, k: nat,
                        fetch: ImageRef -> Option<Bytes>, encode: Bytes -> string)
    requires Collect(done, fetch, encode).Ok?
    requires k < |imgs| && Collect(imgs, fetch, encode) == Err(imgs[k])
    requires forall j :: 0 <= j < k ==> fetch(imgs[j]).Some?
    ensures var all := done + imgs + rest;
      Collect(all, fetch, encode) == Err(imgs[k]) &&
      |done| + k < |all| && all[|done| + k] == imgs[k] &&
      forall j :: 0 <= j < |done| + k ==> fetch(all[j]).Some?
  {
    CollectAppend(imgs, rest, fetch, encode);
    CollectAppend(done, imgs + rest, fetch, encode);
    assert done + imgs + rest == done + (imgs + rest);
    CollectSpec(done, fetch, encode);
    var all := done + imgs + rest;
    forall j | 0 <= j < |done| + k
      ensures fetch(all[j]).Some?
    {
      if j < |done| {
        assert all[j] == done[j];
      } else {
        assert all[j] == imgs[j - |done|];
      }
    }
  }

  /** `if not output_images: return {"error": ...}` else `return {"images": output_images}`. */
  function SelectResult(outputImages: seq<OutputImage>): (r: JobResult)
    ensures r.ErrorReport? <==> outputImages == []
    ensures r.ErrorReport? ==> r.message == NoImagesMessage
    ensures r.Images? ==> r.images == outputImages
  {
    if outputImages == [] then ErrorReport(NoImagesMessage) else Images(outputImages)
  }
}
