/**
 * The shared stream behaviour of tap_loyaltylion/client.py: the API root, the Basic-auth
 * credentials and the HTTP headers taken from the configuration, and the decision whether
 * a response has a next page.
 */
module Client {
  import opened Wrappers
  import opened Values

  /** The tap's configuration, as decoded JSON. */
  type Config = map<string, Json>

  /** One entry of `response.links`; requests always records the link's `url`. */
  datatype Link = Link(url: string, attributes: map<string, string>)

  /**
   * What a response contributes to pagination: its links keyed by relation, and its body,
   * `None` when the body is not JSON (so that `response.json()` raises).
   */
  datatype Response = Response(links: map<string, Link>, body: Option<Json>)

  /** The credentials handed to the Basic authenticator. */
  datatype Credentials = Credentials(username: Json, password: Json)

  /** `url_base`: the configured `api_url`, or None when it is not configured. */
  function UrlBase(config: Config): (r: Json)
    ensures "api_url" in config ==> r == config["api_url"]
    ensures "api_url" !in config ==> r == Null
  {
    Get(config, "api_url", Null)
  }

  /** A setting read under its own key, falling back to its `ll_` alias. */
  function Setting(config: Config, key: string, alias: string): (r: Json)
    ensures key in config ==> r == config[key]
    ensures key !in config && alias in config ==> r == config[alias]
    ensures key !in config && alias !in config ==> r == Null
  {
    Get(config, key, Get(config, alias, Null))
  }

  /** The username and password the authenticator is created with. */
  function Authenticator(config: Config): (r: Credentials)
    ensures "username" in config ==> r.username == config["username"]
    ensures "username" !in config && "ll_username" in config ==> r.username == config["ll_username"]
    ensures "username" !in config && "ll_username" !in config ==> r.username == Null
    ensures "password" in config ==> r.password == config["password"]
    ensures "password" !in config && "ll_password" in config ==> r.password == config["ll_password"]
    ensures "password" !in config && "ll_password" !in config ==> r.password == Null
  {
    Credentials(Setting(config, "username", "ll_username"), Setting(config, "password", "ll_password"))
  }

  /** `http_headers`: a `User-Agent` header exactly when `user_agent` is configured, nothing else. */
  function HttpHeaders(config: Config): (headers: map<string, Json>)
    ensures "User-Agent" in headers <==> "user_agent" in config
    ensures headers.Keys <= {"User-Agent"}
    ensures "User-Agent" in headers ==> headers["User-Agent"] == config["user_agent"]
  {
    if "user_agent" in config then map["User-Agent" := config["user_agent"]] else map[]
  }

  /**
   * `get_next_page_token` without its side effect: the "next" link's URL when there is a
   * next link and the decoded body is truthy, else no token. The body is decoded only when
   * a next link exists, and then a body that is not JSON raises.
   */
  function NextPageToken(response: Response): (r: Result<Option<string>, Error>)
    ensures r.Failure? <==> "next" in response.links && response.body.None?
    ensures r.Failure? ==> r.error == JsonDecodeError
    ensures r == Success(None) <==>
      "next" !in response.links || (response.body.Some? && !Truthy(response.body.value))
    ensures r.Success? && r.value.Some? ==> r.value.value == response.links["next"].url
  {
    if "next" !in response.links then Success(None)
    else
      match response.body
      case None => Failure(JsonDecodeError)
      case Some(body) => if Truthy(body) then Success(Some(response.links["next"].url)) else Success(None)
  }

  /** The emptiness test is on the whole body: an object whose record array is empty still pages on. */
  lemma EmptyRecordArrayStillPages(url: string, recordsKey: string)
    ensures NextPageToken(Response(map["next" := Link(url, map[])], Some(Object(map[recordsKey := Array([])]))))
      == Success(Some(url))
  {
    var body := map[recordsKey := Array([])];
    assert recordsKey in body;
    assert Truthy(Object(body));
  }

  /** The part of a stream object that `get_next_page_token` updates. */
  class LoyaltyLionStream {
    /** The cached `last_id`, cleared when pagination stops. */
    var lastId: Json

    constructor (lastId: Json)
      ensures this.lastId == lastId
    {
      this.lastId := lastId;
    }

    /**
     * Returns the next page token (the previous token plays no part) and clears `lastId`
     * exactly when it returns no token; a body that is not JSON raises and changes nothing.
     */
    method GetNextPageToken(response: Response, previousToken: Option<string>) returns (token: Result<Option<string>, Error>)
      modifies this`lastId
      ensures token == NextPageToken(response)
      ensures lastId == if token == Success(None) then Null else old(lastId)
    {
      var nextLink: Option<Link> := if "next" in response.links then Some(response.links["next"]) else None;
      if nextLink.None? {
        lastId := Null;
        return Success(None);
      }
      if response.body.None? {
        return Failure(JsonDecodeError);
      }
      if !Truthy(response.body.value) {
        lastId := Null;
        return Success(None);
      }
      return Success(Some(nextLink.value.url));
    }
  }
}
