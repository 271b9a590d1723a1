/** The durable object store behind `put` of `@vercel/blob`, seen as a finite
    map from key to stored object. Whether a write succeeds is decided by the
    environment and given to `Put` as a parameter. */
module BlobStore {
  import opened Web

  datatype Content = Binary(bytes: seq<byte>) | Document(json: Json)

  datatype Blob = Blob(content: Content, contentType: string)

  /** `origin` is the public base URL objects are served from. */
  datatype Store = Store(origin: string, objects: map<string, Blob>)

  /** What the store does with the next write. */
  datatype Fault = Accepts | Throws

  /** A finished write reports the object's public URL and its pathname. */
  datatype PutResult = Written(store: Store, url: string, pathname: string) | Failed

  function PublicUrl(s: Store, key: string): string {
    s.origin + "/" + key
  }

  /** `put(key, body, { access: 'public', contentType })`: one object under
      `key`, nothing else touched; a throwing store writes nothing. */
  function Put(s: Store, key: string, blob: Blob, fault: Fault): (r: PutResult)
    ensures r.Failed? <==> fault.Throws?
    ensures r.Written? ==> r.store == Store(s.origin, s.objects[key := blob])
    ensures r.Written? ==> r.pathname == key && r.url == PublicUrl(s, key)
  {
    if fault.Throws? then Failed
    else Written(Store(s.origin, s.objects[key := blob]), PublicUrl(s, key), key)
  }

  /** What a route hands back: the HTTP response and the store after the request. */
  datatype Served = Served(response: Response, store: Store)
}
