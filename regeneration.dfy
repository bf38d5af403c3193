/**
 * Regeneration of the plugin's social sizes for stored attachments: the
 * `sizes` dictionary of an attachment's metadata loses every plugin-owned
 * entry and gets one back per size whose resize-and-save succeeded.
 *
 * File system, image editor and database calls are inputs: a `Probe` says,
 * for one call of `regenerate_attachment_sizes`, what those calls returned.
 */
module Regeneration {
  import opened Wrappers
  import opened ImageSizes

  /** One entry of `$metadata['sizes']`. */
  datatype SizeEntry = SizeEntry(file: string, width: int, height: int, mimeType: string)

  /** The outcome of one `$editor->save()`: the saved file's base name and size, or a WP_Error. */
  datatype SaveResult = Saved(entry: SizeEntry) | SaveFailed

  /** Attachment metadata: the `file` key (absent is None) and the `sizes` dictionary. */
  datatype Metadata = Metadata(file: Option<string>, sizes: map<string, SizeEntry>)

  /**
   * What the host reported during one regeneration: whether the attached
   * file exists, whether `getimagesize` read it, whether an image editor
   * could be obtained, and one save outcome per entry of `SocialSizes`.
   */
  datatype Probe = Probe(fileExists: bool, sizeReadable: bool, editorAvailable: bool, saves: seq<SaveResult>)

  predicate WellFormedProbe(probe: Probe) {
    |probe.saves| == |SocialSizes|
  }

  /** The keys of the first `n` registered sizes. */
  function NamesBefore(n: nat): set<string>
    requires n <= |SocialSizes|
  {
    set j | 0 <= j < n :: SocialSizes[j].name
  }

  /** The dictionary after re-adding the successful saves among the first `n` sizes, in list order. */
  function Readded(kept: map<string, SizeEntry>, saves: seq<SaveResult>, n: nat): map<string, SizeEntry>
    requires n <= |saves| == |SocialSizes|
  {
    if n == 0 then kept
    else
      var before := Readded(kept, saves, n - 1);
      match saves[n - 1]
      case Saved(e) => before[SocialSizes[n - 1].name := e]
      case SaveFailed => before
  }

  /** The new `sizes` dictionary: plugin entries removed, then successful saves re-added. */
  function Rewritten(sizes: map<string, SizeEntry>, editorAvailable: bool, saves: seq<SaveResult>): map<string, SizeEntry>
    requires |saves| == |SocialSizes|
  {
    var kept := sizes - SocialSizeNames;
    if editorAvailable then Readded(kept, saves, |saves|) else kept
  }

  lemma {:induction false} ReaddedKeys(kept: map<string, SizeEntry>, saves: seq<SaveResult>, n: nat)
    requires n <= |saves| == |SocialSizes|
    requires kept.Keys !! SocialSizeNames
    ensures var r := Readded(kept, saves, n);
      && (forall k :: k !in SocialSizeNames ==> (k in r <==> k in kept) && (k in r ==> r[k] == kept[k]))
      && (forall j :: 0 <= j < n ==> (SocialSizes[j].name in r <==> saves[j].Saved?))
      && (forall j :: 0 <= j < n && saves[j].Saved? ==> r[SocialSizes[j].name] == saves[j].entry)
      && (forall j :: n <= j < |SocialSizes| ==> SocialSizes[j].name !in r)
  {
    SocialSizesWellFormed();
    if n > 0 {
      ReaddedKeys(kept, saves, n - 1);
    }
  }

  /**
   * What the rewrite promises: keys the plugin does not own are untouched,
   * and a plugin key is present exactly when the editor was available and
   * that size's save succeeded, holding what the save reported.
   */
  lemma RewrittenSpec(sizes: map<string, SizeEntry>, editorAvailable: bool, saves: seq<SaveResult>)
    requires |saves| == |SocialSizes|
    ensures var r := Rewritten(sizes, editorAvailable, saves);
      && (forall k :: k !in SocialSizeNames ==> (k in r <==> k in sizes) && (k in r ==> r[k] == sizes[k]))
      && (forall j :: 0 <= j < |SocialSizes| ==>
            (SocialSizes[j].name in r <==> editorAvailable && saves[j].Saved?))
      && (forall j :: 0 <= j < |SocialSizes| && editorAvailable && saves[j].Saved? ==>
            r[SocialSizes[j].name] == saves[j].entry)
      && (forall k :: k in r && k in SocialSizeNames ==> editorAvailable)
  {
    SocialSizesWellFormed();
    var kept := sizes - SocialSizeNames;
    ReaddedKeys(kept, saves, |saves|);
  }

  /** When every save fails, the rewrite leaves no plugin key behind. */
  lemma AllFailedRemovesEverySocialKey(sizes: map<string, SizeEntry>, editorAvailable: bool, saves: seq<SaveResult>)
    requires |saves| == |SocialSizes|
    requires forall j :: 0 <= j < |saves| ==> saves[j] == SaveFailed
    ensures Rewritten(sizes, editorAvailable, saves).Keys == sizes.Keys - SocialSizeNames
  {
    RewrittenSpec(sizes, editorAvailable, saves);
    SocialSizesWellFormed();
    var r := Rewritten(sizes, editorAvailable, saves);
    forall k | k in r.Keys
      ensures k in sizes.Keys - SocialSizeNames
    {
      if k in SocialSizeNames {
        assert false;
      }
    }
  }

  /** Regenerating again with the same outcomes gives the same dictionary. */
  lemma RewrittenIdempotent(sizes: map<string, SizeEntry>, editorAvailable: bool, saves: seq<SaveResult>)
    requires |saves| == |SocialSizes|
    ensures Rewritten(Rewritten(sizes, editorAvailable, saves), editorAvailable, saves)
         == Rewritten(sizes, editorAvailable, saves)
  {
    var once := Rewritten(sizes, editorAvailable, saves);
    var twice := Rewritten(once, editorAvailable, saves);
    RewrittenSpec(sizes, editorAvailable, saves);
    RewrittenSpec(once, editorAvailable, saves);
    SocialSizesWellFormed();
    assert twice.Keys == once.Keys;
  }

  /**
   * The two loops of `regenerate_attachment_sizes` over `$metadata['sizes']`:
   * unset every plugin key, then, when an editor was obtained, store the
   * entry of each successful save.
   */
  method RewriteSizes(sizes: map<string, SizeEntry>, editorAvailable: bool, saves: seq<SaveResult>)
    returns (result: map<string, SizeEntry>)
    requires |saves| == |SocialSizes|
    ensures result == Rewritten(sizes, editorAvailable, saves)
  {
    result := sizes;
    var i := 0;
    while i < |SocialSizes|
      invariant 0 <= i <= |SocialSizes|
      invariant result == sizes - NamesBefore(i)
    {
      var name := SocialSizes[i].name;
      if name in result {
        result := result - {name};
      }
      assert NamesBefore(i + 1) == NamesBefore(i) + {name};
      i := i + 1;
    }
    SocialSizesWellFormed();
    assert NamesBefore(|SocialSizes|) == SocialSizeNames;
    if editorAvailable {
      var kept := result;
      i := 0;
      while i < |SocialSizes|
        invariant 0 <= i <= |SocialSizes|
        invariant result == Readded(kept, saves, i)
      {
        match saves[i] {
          case Saved(e) =>
            result := result[SocialSizes[i].name := e];
          case SaveFailed =>
        }
        i := i + 1;
      }
    }
  }

  /** The metadata store after one call of `regenerate_attachment_sizes(id)`. */
  function AfterRegeneration(store: map<int, Metadata>, id: int, probe: Probe): map<int, Metadata>
    requires WellFormedProbe(probe)
  {
    if id !in store || store[id].file.None? || !probe.fileExists || !probe.sizeReadable then store
    else store[id := store[id].(sizes := Rewritten(store[id].sizes, probe.editorAvailable, probe.saves))]
  }

  /** The metadata store after regenerating `ids` in order, each with its own probe. */
  function AfterRegeneratingAll(store: map<int, Metadata>, ids: seq<int>, probes: seq<Probe>): map<int, Metadata>
    requires |probes| == |ids|
    requires forall i :: 0 <= i < |probes| ==> WellFormedProbe(probes[i])
  {
    if |ids| == 0 then store
    else AfterRegeneratingAll(AfterRegeneration(store, ids[0], probes[0]), ids[1..], probes[1..])
  }

  /** Regeneration changes only the given attachment's sizes: its file and every other attachment stay. */
  lemma RegenerationIsLocal(store: map<int, Metadata>, id: int, probe: Probe)
    requires WellFormedProbe(probe)
    ensures var after := AfterRegeneration(store, id, probe);
      && after.Keys == store.Keys
      && (forall other :: other in store && other != id ==> after[other] == store[other])
      && (id in store ==> after[id].file == store[id].file)
      && (id in store ==> forall k :: k !in SocialSizeNames ==>
            (k in after[id].sizes <==> k in store[id].sizes) &&
            (k in after[id].sizes ==> after[id].sizes[k] == store[id].sizes[k]))
  {
    if id in store && store[id].file.Some? && probe.fileExists && probe.sizeReadable {
      RewrittenSpec(store[id].sizes, probe.editorAvailable, probe.saves);
    }
  }

  /** Regenerating a list of attachments never touches an attachment outside the list. */
  lemma {:induction false} RegeneratingAllIsLocal(store: map<int, Metadata>, ids: seq<int>, probes: seq<Probe>)
    requires |probes| == |ids|
    requires forall i :: 0 <= i < |probes| ==> WellFormedProbe(probes[i])
    ensures var after := AfterRegeneratingAll(store, ids, probes);
      && after.Keys == store.Keys
      && forall other :: other in store && other !in ids ==> after[other] == store[other]
  {
    if |ids| > 0 {
      var next := AfterRegeneration(store, ids[0], probes[0]);
      RegenerationIsLocal(store, ids[0], probes[0]);
      RegeneratingAllIsLocal(next, ids[1..], probes[1..]);
      forall other | other in store && other !in ids
        ensures other !in ids[1..] && other != ids[0]
      {
        assert ids == [ids[0]] + ids[1..];
      }
    }
  }

  /** The reply of the regenerate-crops endpoint; both forms report success. */
  datatype Response = NoImagesToRegenerate | RegeneratedImages(count: nat)

  /** The attachment metadata the host keeps, edited in place by regeneration. */
  class MediaLibrary {
    var metadata: map<int, Metadata>

    constructor (metadata: map<int, Metadata>)
      ensures this.metadata == metadata
    {
      this.metadata := metadata;
    }

    /**
     * `regenerate_attachment_sizes`: read the attachment's metadata, give
     * up when it has no file or the file cannot be read, rewrite its sizes
     * and write the metadata back.
     */
    method RegenerateAttachmentSizes(id: int, probe: Probe)
      requires WellFormedProbe(probe)
      modifies this
      ensures metadata == AfterRegeneration(old(metadata), id, probe)
    {
      if id !in metadata {
        return;
      }
      var md := metadata[id];
      if md.file.None? || !probe.fileExists || !probe.sizeReadable {
        return;
      }
      var sizes := RewriteSizes(md.sizes, probe.editorAvailable, probe.saves);
      metadata := metadata[id := md.(sizes := sizes)];
    }

    /**
     * `handle_regenerate_crops`: regenerate every attachment the query
     * returned, in order, counting them.
     */
    method HandleRegenerateCrops(ids: seq<int>, probes: seq<Probe>) returns (response: Response)
      requires |probes| == |ids|
      requires forall i :: 0 <= i < |probes| ==> WellFormedProbe(probes[i])
      modifies this
      ensures response == if |ids| == 0 then NoImagesToRegenerate else RegeneratedImages(|ids|)
      ensures metadata == AfterRegeneratingAll(old(metadata), ids, probes)
    {
      if |ids| == 0 {
        return NoImagesToRegenerate;
      }
      var regenerated := 0;
      var i := 0;
      while i < |ids|
        invariant 0 <= i <= |ids|
        invariant regenerated == i
        invariant AfterRegeneratingAll(old(metadata), ids, probes)
               == AfterRegeneratingAll(metadata, ids[i..], probes[i..])
      {
        RegenerateAttachmentSizes(ids[i], probes[i]);
        assert ids[i..][1..] == ids[i + 1..] && probes[i..][1..] == probes[i + 1..];
        regenerated := regenerated + 1;
        i := i + 1;
      }
      response := RegeneratedImages(regenerated);
    }
  }
}
