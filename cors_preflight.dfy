/** Answering CORS preflight requests (section 3.2 of the WHATWG Fetch
    Standard): an `OPTIONS` request gets a new empty response carrying the
    three `Access-Control-Allow-*` headers and never reaches the handler;
    any other request goes on with no CORS header added. */
module CORSPreflight {
  import opened Http

  const AllowOrigin: string := "*"
  const AllowMethods: string := "GET, POST, OPTIONS"
  const AllowHeaders: string := "Content-Type, Authorization"

  method Call(request: Request) returns (step: Step)
    ensures step.Reply? <==> request.httpMethod == "OPTIONS"
    ensures step.Forward? ==> step.request == request
    ensures step.Reply? ==>
      HeadersAssigned(TextResponse("", 200, DefaultContentType), step.response, map[
        "Access-Control-Allow-Origin" := AllowOrigin,
        "Access-Control-Allow-Methods" := AllowMethods,
        "Access-Control-Allow-Headers" := AllowHeaders])
  {
    if request.httpMethod == "OPTIONS" {
      var response := TextResponse("", 200, DefaultContentType);
      response := response.(headers := response.headers["Access-Control-Allow-Origin" := "*"]);
      response := response.(headers := response.headers["Access-Control-Allow-Methods" := "GET, POST, OPTIONS"]);
      response := response.(headers := response.headers["Access-Control-Allow-Headers" := "Content-Type, Authorization"]);
      return Reply(response);
    }
    step := Forward(request);
  }

  /** The preflight answer is a 200 with an empty body whose headers are
      exactly the content type and the three CORS values. */
  lemma PreflightHeadersExactly(response: Response)
    requires HeadersAssigned(TextResponse("", 200, DefaultContentType), response, map[
        "Access-Control-Allow-Origin" := AllowOrigin,
        "Access-Control-Allow-Methods" := AllowMethods,
        "Access-Control-Allow-Headers" := AllowHeaders])
    ensures response.status == 200 && response.content == Text("")
    ensures response.headers == map[
      "Content-Type" := DefaultContentType,
      "Access-Control-Allow-Origin" := "*",
      "Access-Control-Allow-Methods" := "GET, POST, OPTIONS",
      "Access-Control-Allow-Headers" := "Content-Type, Authorization"]
  {
    var values := map[
        "Access-Control-Allow-Origin" := AllowOrigin,
        "Access-Control-Allow-Methods" := AllowMethods,
        "Access-Control-Allow-Headers" := AllowHeaders];
    HeadersAssignedIsMerge(TextResponse("", 200, DefaultContentType), response, values);
  }
}
