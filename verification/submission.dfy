/** What the wizards' Finalize button sends: the save call, then one upload of the new files,
    then one call per removed stored file. The server's answers are inputs: the id a create
    returns, and the position of the first call that fails. */
module Submission {
  import opened Options
  import opened Js
  import opened Seqs

  /** One `files` part of the upload: the picked file's uri, name and mime type. */
  datatype FilePart = FilePart(uri: Value, name: Value, mimeType: Value)

  /** A request the wizard makes. `fileType` is the type a property file deletion sends; the
      apartment deletion sends none. */
  datatype Call =
    | Create(body: Record)
    | Update(id: Value, body: Record)
    | Upload(id: Value, files: seq<FilePart>)
    | DeleteFile(id: Value, url: Value, fileType: Option<Value>)

  /** One part per picked file, in pick order. */
  function FileParts(media: seq<Value>): (r: seq<FilePart>)
    ensures |r| == |media|
    ensures forall i :: 0 <= i < |media| ==> r[i].uri == Get(media[i], "uri") && r[i].name == Get(media[i], "name")
    ensures forall i :: 0 <= i < |media| ==> r[i].mimeType == Get(media[i], "mimeType")
  {
    seq(|media|, i requires 0 <= i < |media| => FilePart(Get(media[i], "uri"), Get(media[i], "name"), Get(media[i], "mimeType")))
  }

  /** A stored photo url as an item of `existingMedia`. */
  function StoredPhoto(url: Value): Value {
    Obj(map["url" := url, "type" := Str("photo")])
  }

  /** `Boolean(id)`: the screen edits when a route id is present. */
  predicate IsEditing(id: Value) {
    Truthy(id)
  }

  /** The loader's result: the starting values, if any, and the error alert. */
  datatype Loaded = Loaded(initial: Option<Record>, failed: bool)

  /** `(photos || []).map(...)`, the conversion both edit screens apply to the stored photo
      urls: None when the photos are a truthy value that is not an array, on which `map`
      throws. */
  function ExistingMediaOf(photos: Value): (r: Option<seq<Value>>)
    ensures !Truthy(photos) ==> r == Some([])
    ensures photos.Arr? ==> r.Some? && |r.value| == |photos.items|
    ensures photos.Arr? ==> forall i :: 0 <= i < |photos.items| ==>
      Get(r.value[i], "url") == photos.items[i] && Get(r.value[i], "type") == Str("photo")
  {
    var list := Or(photos, Arr([]));
    if list.Arr? then
      var items := seq(|list.items|, i requires 0 <= i < |list.items| => StoredPhoto(list.items[i]));
      assert list.items == [] ==> items == [];
      Some(items)
    else None
  }

  /** Whether some item of `current` has the url of `item`. */
  predicate StillPresent(current: seq<Value>, item: Value) {
    Exists(current, (c: Value) => StrictEquals(Get(c, "url"), Get(item, "url")))
  }

  /** The stored files the user removed: the initial items whose url no current item has, in
      their original order. */
  function DeletedMedia(initial: seq<Value>, current: seq<Value>): (r: seq<Value>)
    ensures forall i :: 0 <= i < |r| ==> r[i] in initial && !StillPresent(current, r[i])
    ensures forall i :: 0 <= i < |initial| && !StillPresent(current, initial[i]) ==> initial[i] in r
  {
    Filter(initial, (x: Value) => !StillPresent(current, x))
  }

  /** Deletion keeps the initial order. */
  lemma DeletedMediaInOrder(initial: seq<Value>, current: seq<Value>)
    ensures IsSubsequence(DeletedMedia(initial, current), initial)
  {
    FilterIsSubsequence(initial, (x: Value) => !StillPresent(current, x));
  }

  /** The stored files' urls are text. */
  predicate StringUrls(items: seq<Value>) {
    forall i :: 0 <= i < |items| ==> Get(items[i], "url").Str?
  }

  /** The stored files carry distinct string urls. */
  predicate DistinctUrls(items: seq<Value>) {
    StringUrls(items)
    && (forall i, j :: 0 <= i < j < |items| ==> Get(items[i], "url") != Get(items[j], "url"))
  }

  /** Removing the stored file at `k` and nothing else makes exactly that file deleted. */
  lemma RemovingOneDeletesIt(initial: seq<Value>, k: nat)
    requires k < |initial| && DistinctUrls(initial)
    ensures DeletedMedia(initial, RemoveAt(initial, k)) == [initial[k]]
  {
    var current := RemoveAt(initial, k);
    var keep := (x: Value) => !StillPresent(current, x);
    forall j | 0 <= j < |initial| && j != k
      ensures !keep(initial[j])
    {
      var c := if j < k then j else j - 1;
      assert current[c] == initial[j];
      assert StrictEquals(Get(current[c], "url"), Get(initial[j], "url"));
    }
    assert keep(initial[k]) by {
      forall c | 0 <= c < |current|
        ensures !StrictEquals(Get(current[c], "url"), Get(initial[k], "url"))
      {
        if c < k {
          assert current[c] == initial[c];
        } else {
          assert current[c] == initial[c + 1];
        }
      }
    }
    FilterSingle(initial, keep, k);
  }

  /** Keeping every stored file deletes none. */
  lemma KeepingAllDeletesNone(initial: seq<Value>)
    requires StringUrls(initial)
    ensures DeletedMedia(initial, initial) == []
  {
    var keep := (x: Value) => !StillPresent(initial, x);
    forall j | 0 <= j < |initial|
      ensures !keep(initial[j])
    {
      assert StrictEquals(Get(initial[j], "url"), Get(initial[j], "url"));
    }
    FilterNone(initial, keep);
  }

  /** Finalize's calls, in order: the save, one upload of `files` under `id` when `upload`
      holds, then the deletions. */
  function Plan(save: Call, id: Value, upload: bool, files: seq<FilePart>, deletions: seq<Call>): (plan: seq<Call>)
    ensures |plan| == 1 + (if upload then 1 else 0) + |deletions|
    ensures plan[0] == save
    ensures (|plan| > 1 && plan[1].Upload?) <==> upload || (deletions != [] && deletions[0].Upload?)
    ensures upload ==> plan[1] == Upload(id, files)
    ensures plan[|plan| - |deletions|..] == deletions
  {
    var up := if upload then [Upload(id, files)] else [];
    var plan := [save] + up + deletions;
    assert plan[|plan| - |deletions|..] == deletions;
    plan
  }

  /** The outcome of running a plan: the calls made, and whether all of them succeeded. */
  datatype Outcome = Outcome(made: seq<Call>, ok: bool)

  /** Awaiting the calls of `plan` in order; `failAt` is the position of the first call whose
      promise rejects, after which nothing more is sent. */
  function Perform(plan: seq<Call>, failAt: Option<nat>): (o: Outcome)
    ensures o.ok <==> failAt.None? || failAt.value >= |plan|
    ensures o.ok ==> o.made == plan
    ensures !o.ok ==> 0 < |o.made| <= |plan| && o.made == plan[..|o.made|]
    ensures !o.ok ==> o.made[|o.made| - 1] == plan[failAt.value]
  {
    match failAt
    case Some(k) => if k < |plan| then Outcome(plan[..k + 1], false) else Outcome(plan, true)
    case None => Outcome(plan, true)
  }

  /** The first truthy candidate, or the fallback text: the `a || b || 'text'` chains of the
      error alerts. */
  function FirstTruthy(candidates: seq<Value>, fallback: string): (r: Value)
    requires fallback != ""
    ensures Truthy(r)
    ensures (forall i :: 0 <= i < |candidates| ==> !Truthy(candidates[i])) ==> r == Str(fallback)
    ensures forall i :: 0 <= i < |candidates| ==>
      (Truthy(candidates[i]) && (forall j :: 0 <= j < i ==> !Truthy(candidates[j])) ==> r == candidates[i])
  {
    if candidates == [] then Str(fallback)
    else Or(candidates[0], FirstTruthy(candidates[1..], fallback))
  }

  /** The alert the wizard shows when it is done. */
  datatype Alert = Alert(title: string, message: Value)
}
