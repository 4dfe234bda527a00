/** GET and POST /api/settings (api/api_settings.py).

  The store is given its normalizer; the theorems ask of it only that normalizing
  twice changes nothing and that each key of the result depends on that key alone. */
module SettingsRoutes {
  import opened Prelude
  import opened JsonValue

  datatype Response = Done(settings: Items) | Refused(status: int)

  // An empty body is an empty update; other non-objects have no get().
  function Refusal(data: Json): Option<int> {
    if !Truthy(data) then None
    else if !data.Dict? then Some(500)
    else if !Requested(data).Dict? then Some(400)
    else None
  }

  // data.get("settings", data)
  function Requested(data: Json): Json
    requires data.Dict?
  {
    if Get(data.items, "settings").Some? then Get(data.items, "settings").value else data
  }

  function Update(data: Json): Items {
    if data.Dict? && Requested(data).Dict? then Requested(data).items else []
  }

  function Posted(normalize: Items -> Items, settings: Items, data: Json): Items {
    if Refusal(data).Some? then settings else normalize(Merged(normalize(settings), Update(data)))
  }

  function Answer(normalize: Items -> Items, settings: Items, data: Json): Response {
    if Refusal(data).Some? then Refused(Refusal(data).value)
    else Done(normalize(Posted(normalize, settings, data)))
  }

  class SettingsStore {
    const normalize: Items -> Items
    var settings: Items
    ghost var answered: Option<Items>

    // `answered` is what the last successful post answered, and is what reads give.
    ghost predicate Valid()
      reads this
    {
      Idempotent(normalize) && (answered.Some? ==> settings == answered.value == normalize(settings))
    }

    constructor (normalize: Items -> Items, settings: Items)
      requires Idempotent(normalize)
      ensures Valid() && this.normalize == normalize && this.settings == settings && answered == None
    {
      this.normalize := normalize;
      this.settings := settings;
      answered := None;
    }

    method GetSettings() returns (answer: Items)
      requires Valid()
      ensures answered.Some? ==> answer == answered.value
      ensures normalize(answer) == answer == normalize(settings)
    {
      answer := normalize(settings);
    }

    method PostSettings(data: Json) returns (answer: Response)
      requires Valid()
      modifies this
      ensures Valid()
      ensures answer == Answer(normalize, old(settings), data) && settings == Posted(normalize, old(settings), data)
      ensures answered == if answer.Done? then Some(answer.settings) else old(answered)
    {
      var updates := [];
      if Truthy(data) {
        if !data.Dict? {
          return Refused(500);
        }
        var found := Get(data.items, "settings");
        var requested := if found.Some? then found.value else data;
        if !requested.Dict? {
          return Refused(400);
        }
        updates := requested.items;
      }
      var current := normalize(settings);
      var merged := DeepMerge(current, updates);
      settings := normalize(merged);
      answered := Some(normalize(settings));
      return Done(normalize(settings));
    }
  }

  ghost predicate Idempotent(normalize: Items -> Items) {
    forall d :: normalize(normalize(d)) == normalize(d)
  }

  ghost predicate SectionWise(normalize: Items -> Items) {
    forall d, e, key :: Get(d, key) == Get(e, key) ==> Get(normalize(d), key) == Get(normalize(e), key)
  }

  function AfterPosts(normalize: Items -> Items, settings: Items, posts: seq<Json>): Items
    decreases |posts|
  {
    if posts == [] then settings else AfterPosts(normalize, Posted(normalize, settings, posts[0]), posts[1..])
  }

  lemma {:induction false} RefusedPostsChangeNothing(normalize: Items -> Items, settings: Items, posts: seq<Json>)
    requires forall i :: 0 <= i < |posts| ==> Refusal(posts[i]).Some?
    ensures AfterPosts(normalize, settings, posts) == settings
    decreases |posts|
  {
    if posts != [] { RefusedPostsChangeNothing(normalize, settings, posts[1..]); }
  }

  // A successful post answers exactly what it stored, and that is what every later
  // read returns until the next successful post.
  lemma {:induction false} AnswerIsStoredAndRead(normalize: Items -> Items, settings: Items, data: Json,
                                                 refused: seq<Json>)
    requires Idempotent(normalize)
    requires Refusal(data).None? && forall i :: 0 <= i < |refused| ==> Refusal(refused[i]).Some?
    ensures Answer(normalize, settings, data) == Done(Posted(normalize, settings, data))
    ensures var later := AfterPosts(normalize, Posted(normalize, settings, data), refused);
            Done(normalize(later)) == Answer(normalize, settings, data)
  {
    RefusedPostsChangeNothing(normalize, Posted(normalize, settings, data), refused);
  }

  lemma UnnamedSectionStays(normalize: Items -> Items, settings: Items, data: Json, key: string)
    requires Idempotent(normalize) && SectionWise(normalize)
    requires Distinct(Update(data)) && Get(Update(data), key).None?
    ensures Get(normalize(Posted(normalize, settings, data)), key) == Get(normalize(settings), key)
  {
    var merged, normal := Merged(normalize(settings), Update(data)), normalize(settings);
    MergeLooksUp(normal, Update(data), key);
    assert Get(merged, key) == Get(normal, key);
    assert Get(normalize(merged), key) == Get(normalize(normal), key);
    assert normalize(normal) == normal && normalize(normalize(merged)) == normalize(merged);
  }

  // A section that no update of a history names still reads as it did before.
  lemma {:induction false} UnnamedSectionsStay(normalize: Items -> Items, settings: Items, posts: seq<Json>,
                                               key: string)
    requires Idempotent(normalize) && SectionWise(normalize)
    requires forall i :: 0 <= i < |posts| ==> Distinct(Update(posts[i])) && Get(Update(posts[i]), key).None?
    ensures Get(normalize(AfterPosts(normalize, settings, posts)), key) == Get(normalize(settings), key)
    decreases |posts|
  {
    if posts != [] {
      UnnamedSectionsStay(normalize, Posted(normalize, settings, posts[0]), posts[1..], key);
      UnnamedSectionStays(normalize, settings, posts[0], key);
    }
  }

  // What a body asks for: the object under "settings" if it has that key, else the
  // whole body; a body that is empty in Python's sense asks for nothing.
  lemma UpdateOfBody(data: Json)
    requires data.Dict?
    ensures Get(data.items, "settings").None? ==> Refusal(data).None? && Update(data) == data.items
    ensures Get(data.items, "settings").Some? ==>
              var inner := Get(data.items, "settings").value;
              if inner.Dict? then Refusal(data).None? && Update(data) == inner.items else Refusal(data) == Some(400)
  {}

  lemma RefusedBodies(data: Json)
    requires !data.Dict?
    ensures if Truthy(data) then Refusal(data) == Some(500) else Refusal(data).None? && Update(data) == []
  {}

  // A post applies its update: under every key the answer, and hence every later read,
  // is what normalizing makes of the update laid over the settings there.
  lemma PostAppliesUpdate(normalize: Items -> Items, settings: Items, data: Json, key: string, d: Items)
    requires Idempotent(normalize) && SectionWise(normalize) && Refusal(data).None? && Distinct(Update(data))
    requires Get(d, key) == MergedValue(Get(normalize(settings), key), Get(Update(data), key))
    ensures Answer(normalize, settings, data).Done?
    ensures Get(Answer(normalize, settings, data).settings, key) == Get(normalize(d), key)
    ensures Get(normalize(Posted(normalize, settings, data)), key) == Get(normalize(d), key)
  {
    var merged := Merged(normalize(settings), Update(data));
    MergeLooksUp(normalize(settings), Update(data), key);
    assert Get(merged, key) == Get(d, key);
    assert normalize(normalize(merged)) == normalize(merged);
  }
}
