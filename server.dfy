/** The media relay's request handler: a function from a request and the
    served file to a response. `GET /` with status 200 and 404 for every other
    path are the responses of sections 15.3.1 and 15.5.5 of RFC 9110. */
module Server {
  import opened Wrappers

  type Byte = bv8

  /** What the handler sees of a request: its method (`verb`), the path of its URI and
      the URI's query string. */
  datatype Request = Request(verb: string, path: string, query: Option<string>)

  /** The file the relay serves, as the handler finds it when it opens it. */
  datatype FileState = Readable(bytes: seq<Byte>) | Unreadable

  datatype Response = Response(status: nat, contentType: Option<string>, body: seq<Byte>)

  const StatusOk: nat := 200
  const StatusNotFound: nat := 404
  const ServedContentType := "video/mp4"

  /** The bytes of "Not Found". */
  const NotFoundBody: seq<Byte> := [0x4E, 0x6F, 0x74, 0x20, 0x46, 0x6F, 0x75, 0x6E, 0x64]

  /** The root path serves the whole file as `video/mp4`; any other path is
      404 with the body "Not Found" and no content type. The file is opened
      only for the root path, and there it must be readable: an open or read
      failure is not turned into a response. */
  function HandleRequest(req: Request, file: FileState): (resp: Response)
    requires req.path == "/" ==> file.Readable?
    ensures resp.status == StatusOk <==> req.path == "/"
    ensures resp.status == StatusOk || resp.status == StatusNotFound
    ensures resp.status == StatusOk ==> resp.body == file.bytes && resp.contentType == Some(ServedContentType)
    ensures resp.status == StatusNotFound ==> resp.body == NotFoundBody && resp.contentType.None?
  {
    if req.path == "/" then
      Response(StatusOk, Some(ServedContentType), file.bytes)
    else
      Response(StatusNotFound, None, NotFoundBody)
  }

  /** Routing looks at the path alone: neither the method nor the query
      string changes the response, and a 404 does not depend on the file. */
  lemma RoutingUsesPathOnly(a: Request, b: Request, fa: FileState, fb: FileState)
    requires a.path == b.path
    requires a.path == "/" ==> fa == fb && fa.Readable?
    ensures HandleRequest(a, fa) == HandleRequest(b, fb)
  {
  }

  /** A file holding "Hello, world!" is served back byte for byte. */
  lemma ServesHelloWorld()
    ensures var hello: seq<Byte> := [0x48, 0x65, 0x6C, 0x6C, 0x6F, 0x2C, 0x20, 0x77, 0x6F, 0x72, 0x6C, 0x64, 0x21];
            var resp := HandleRequest(Request("GET", "/", None), Readable(hello));
            resp.status == 200 && resp.body == hello
  {
  }

  /** `GET /nope` is answered 404. */
  lemma RejectsOtherPath(file: FileState)
    ensures HandleRequest(Request("GET", "/nope", None), file).status == 404
  {
  }
}
