/** Restriction of HTTP methods by path prefix: a request whose path starts
    with a restricted prefix and whose method is listed for it is refused with
    405 Method Not Allowed (section 6.5.5 of RFC 7231), the response naming
    GET as the permitted method; every other request goes on. */
module HttpMethodRestriction {
  import opened Http

  /** The `restricted_paths` dictionary in its iteration order. */
  const RestrictedPaths: seq<(string, seq<string>)> := [("/admin/sensitive-endpoint/", ["POST", "DELETE"])]

  const PermittedMethods: seq<string> := ["GET"]

  /** `", ".join(items)` */
  function Join(items: seq<string>): string
  {
    if items == [] then ""
    else if |items| == 1 then items[0]
    else items[0] + ", " + Join(items[1..])
  }

  /** `HttpResponseNotAllowed(permitted)`: status 405 with the `Allow` header. */
  function NotAllowed(permitted: seq<string>): Response
  {
    Response(405, map["Content-Type" := DefaultContentType, "Allow" := Join(permitted)], map[], Text(""))
  }

  /** The search through the table: some entry's prefix starts the path and
      lists the method (exact, case-sensitive comparison). */
  function Restricted(table: seq<(string, seq<string>)>, path: string, httpMethod: string): (r: bool)
    ensures r <==> exists i :: 0 <= i < |table| && StartsWith(path, table[i].0) && httpMethod in table[i].1
  {
    if table == [] then false
    else if StartsWith(path, table[0].0) && httpMethod in table[0].1 then true
    else
      var rest := Restricted(table[1..], path, httpMethod);
      assert forall i :: 1 <= i < |table| ==> table[i] == table[1..][i - 1];
      rest
  }

  /** The filter over the fixed table. */
  function Decide(request: Request): (step: Step)
    ensures step.Forward? <==> !Restricted(RestrictedPaths, request.path, request.httpMethod)
    ensures step.Forward? ==> step.request == request
    ensures step.Reply? ==> step.response == NotAllowed(PermittedMethods)
  {
    if Restricted(RestrictedPaths, request.path, request.httpMethod) then Reply(NotAllowed(PermittedMethods))
    else Forward(request)
  }

  /** With the one table entry: refused exactly for POST or DELETE on a path
      under the prefix, sub-paths included. */
  lemma RefusedExactly(request: Request)
    ensures Decide(request).Reply? <==>
      StartsWith(request.path, "/admin/sensitive-endpoint/") && (request.httpMethod == "POST" || request.httpMethod == "DELETE")
  {
  }

  /** The refusal always permits GET alone, whatever method was refused. */
  lemma RefusalPermitsGet(request: Request)
    requires Decide(request).Reply?
    ensures Decide(request).response.status == 405
    ensures Decide(request).response.headers["Allow"] == "GET"
  {
  }

  /** A refused path is refused at any depth below the prefix, and a
      lower-case method name is not refused. */
  lemma PrefixAndCase(request: Request, suffix: string)
    requires request.path == "/admin/sensitive-endpoint/" + suffix
    ensures request.httpMethod == "DELETE" ==> Decide(request).Reply?
    ensures request.httpMethod == "post" ==> Decide(request) == Forward(request)
  {
    assert StartsWith(request.path, "/admin/sensitive-endpoint/");
  }
}
