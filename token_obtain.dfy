/** The token-obtain view: the serializer validates the submitted
    credentials and yields a dictionary holding `refresh` and `access` tokens;
    the view moves both tokens out of the body into cookies. Any exception on
    the way (a validation failure, a missing token key) is answered 400 with
    the exception's text as `detail`. */
module CustomTokenObtainPair {
  import opened Http
  import opened TokenCookies

  /** `str(KeyError(key))`: the key in single quotes. */
  function KeyErrorText(key: string): string
  {
    "'" + key + "'"
  }

  /** `validation` is what `is_valid(raise_exception=True)` leaves: the
      validated data, or the text of the exception it raised. */
  method Post(validation: Result<map<string, string>, string>) returns (response: Response)
    ensures validation.Err? ==> response == BadRequest(validation.error)
    ensures validation.Ok? && "refresh" !in validation.value ==> response == BadRequest(KeyErrorText("refresh"))
    ensures validation.Ok? && "refresh" in validation.value && "access" !in validation.value ==>
      response == BadRequest(KeyErrorText("access"))
    ensures validation.Ok? && "refresh" in validation.value && "access" in validation.value ==>
      response.status == 200 && response.headers == map[]
      && response.cookies == map[
        AccessCookieName := TokenCookie(validation.value["access"], AccessMaxAge),
        RefreshCookieName := TokenCookie(validation.value["refresh"], RefreshMaxAge)]
      && response.content == Data(validation.value - {"refresh", "access"})
  {
    if validation.Err? {
      return BadRequest(validation.error);
    }
    var data := validation.value;
    response := DataResponse(data, 200);
    if "refresh" !in data {
      return BadRequest(KeyErrorText("refresh"));
    }
    var refresh := data["refresh"];
    if "access" !in data {
      return BadRequest(KeyErrorText("access"));
    }
    var access := data["access"];
    response := SetCookie(response, AccessCookieName, TokenCookie(access, AccessMaxAge));
    response := SetCookie(response, RefreshCookieName, TokenCookie(refresh, RefreshMaxAge));
    var body := response.content.data;
    body := body - {"refresh"};
    body := body - {"access"};
    response := response.(content := Data(body));
  }

  /** Nothing is lost on success: the body and the two cookies together give
      back the validated data, and the body keeps every other key. */
  lemma TokensMovedToCookies(data: map<string, string>, response: Response)
    requires "refresh" in data && "access" in data
    requires response.cookies == map[
        AccessCookieName := TokenCookie(data["access"], AccessMaxAge),
        RefreshCookieName := TokenCookie(data["refresh"], RefreshMaxAge)]
    requires response.content == Data(data - {"refresh", "access"})
    ensures "refresh" !in response.content.data && "access" !in response.content.data
    ensures forall k :: k in data && k != "refresh" && k != "access" ==> k in response.content.data && response.content.data[k] == data[k]
    ensures response.content.data["refresh" := response.cookies[RefreshCookieName].value]["access" := response.cookies[AccessCookieName].value] == data
  {
    var body := response.content.data;
    assert body["refresh" := data["refresh"]]["access" := data["access"]] == data;
  }

  /** The refresh cookie lives 24 times as long as the access cookie. */
  lemma RefreshOutlivesAccess()
    ensures RefreshMaxAge == 24 * AccessMaxAge && AccessMaxAge == 3600
  {
  }
}
