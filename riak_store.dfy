/**
  * The Riak HTTP store the service talks to through axios, reduced to what
  * the service observes: a GET answers with the stored bytes and the object's
  * Last-Modified time, or fails (absent object or transport error, which the
  * service cannot tell apart); a POST replaces the object and stamps it with
  * the store's clock.
  */
module Riak {
  import opened Common

  /** One stored object: its bytes, its Last-Modified time when the store reports one, its content type. */
  datatype StoredObject = StoredObject(data: Bytes, lastModified: Option<int>, contentType: string)

  /** A GET: the object stored at `url`, or nothing. */
  function Lookup(objects: map<string, StoredObject>, url: string): Option<StoredObject> {
    if url in objects then Some(objects[url]) else None
  }

  class RiakStore {
    /** The objects of the store, by URL. */
    var objects: map<string, StoredObject>

    constructor (initial: map<string, StoredObject>)
      ensures objects == initial
    {
      objects := initial;
    }

    /** A GET of `url` (app.service.ts, lines 253-273): the stored object, or nothing when the request fails. */
    function Get(url: string): (r: Option<StoredObject>)
      reads this
      ensures r.Some? <==> url in objects
      ensures r.Some? ==> r.value == objects[url]
    {
      Lookup(objects, url)
    }

    /**
      * A POST of `data` to `url` with its content type (lines 49-53, 63-67 and
      * 92-96): the object at `url` is replaced and stamped with the store's
      * time `now`; every other object stays as it was.
      */
    method Post(url: string, data: Bytes, contentType: string, now: int)
      modifies this
      ensures objects == old(objects)[url := StoredObject(data, Some(now), contentType)]
    {
      objects := objects[url := StoredObject(data, Some(now), contentType)];
    }
  }
}
