/**
 * The object store bucket both handlers use, keyed by object name. A call to the store may fail
 * for reasons the model does not see; which calls fail is a nondeterministic choice.
 */
module Store {
  import opened Wrappers
  import Json

  class Bucket {
    var objects: map<string, Json.Bytes>

    constructor (initial: map<string, Json.Bytes>)
      ensures objects == initial
    {
      objects := initial;
    }

    /** `putObject`: on success the object under `key` is replaced (or created); on failure nothing changes. */
    method PutObject(key: string, content: Json.Bytes) returns (ok: bool)
      modifies this
      ensures objects == if ok then old(objects)[key := content] else old(objects)
    {
      ok := *;
      if ok {
        objects := objects[key := content];
      }
    }

    /** `getObject`: an absent key always fails; a present one yields its contents unless the read fails. */
    method GetObject(key: string) returns (content: Option<Json.Bytes>)
      ensures content.Some? ==> key in objects && content.value == objects[key]
      ensures key !in objects ==> content == None
    {
      if key in objects {
        var ok: bool := *;
        content := if ok then Some(objects[key]) else None;
      } else {
        content := None;
      }
    }
  }
}
