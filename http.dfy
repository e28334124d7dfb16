/**
 * How a tile download's HTTP status, or a transport failure, is classified into
 * "no content" and an error reason.
 */
module Http {
  import opened Util

  /** Why a request failed. */
  datatype Reason = NotFound | Server | Connection | RateLimit | Other

  /** What the engine reads from a response: no content (304), or an error, or neither. */
  datatype HttpResponse = HttpResponse(noContent: bool, error: Option<Reason>)

  /** The response built from an HTTP status code. */
  function FromStatus(status: int): (r: HttpResponse)
    ensures r.noContent <==> status == 304
    ensures r.noContent ==> r.error.None?
    ensures r.error == Some(NotFound) <==> status == 404
    ensures r.error == Some(RateLimit) <==> status == 429
    ensures r.error == Some(Server) <==> 500 <= status < 600
    ensures r.error == Some(Other) <==>
              !(200 <= status < 300) && status !in {304, 404, 429} && !(500 <= status < 600)
    ensures r.error.None? <==> 200 <= status < 300 || status == 304
    ensures r.error != Some(Connection)
  {
    if status == 304 then HttpResponse(true, None)
    else if status == 404 then HttpResponse(false, Some(NotFound))
    else if status == 429 then HttpResponse(false, Some(RateLimit))
    else if status >= 500 && status < 600 then HttpResponse(false, Some(Server))
    else if !(status >= 200 && status < 300) then HttpResponse(false, Some(Other))
    else HttpResponse(false, None)
  }

  /** The response built from a transport exception. */
  function FromException(): (r: HttpResponse)
    ensures r.error == Some(Connection) && !r.noContent
  {
    HttpResponse(false, Some(Connection))
  }
}
