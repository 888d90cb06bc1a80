/**
 * The global error handler: picks the status code and the JSON body of the
 * response for an error thrown anywhere in the request chain.
 */
module ErrorHandling {
  import opened Wrappers
  import opened Errors
  import News
  import NewsController
  import Auth

  /** The three kinds of error the handler tells apart; `stack` is the error's stack trace text. */
  datatype Thrown =
    | ValidationFailure(key: string, message: string, stack: string)
    | Server(error: ServerError, stack: string)
    | Other(stack: string)
  {
    function Stack(): string {
      match this
      case ValidationFailure(_, _, s) => s
      case Server(_, s) => s
      case Other(s) => s
    }
  }

  /** The response body; an absent `stackTrace` is left out of the JSON. */
  datatype Body = Body(status: string, error: string, message: string, stackTrace: Option<string>)

  datatype Response = Response(statusCode: nat, body: Body)

  const LoginUrl := "/users/login"

  /** The environment name the development check compares with, spelled as the program spells it. */
  const DevelopmentEnv := "developement"

  /** `process.env.NODE_ENV === "developement"`, with None for an unset variable. */
  predicate IsInDevelopmentMode(nodeEnv: Option<string>) {
    nodeEnv == Some(DevelopmentEnv)
  }

  function StackTrace(err: Thrown, nodeEnv: Option<string>): Option<string> {
    if IsInDevelopmentMode(nodeEnv) then Some(err.Stack()) else None
  }

  /**
   * `errorHandler(err, req, res, next)`: the response the handler sends for
   * `err` on a request to `url`.
   */
  function ErrorHandler(err: Thrown, url: string, nodeEnv: Option<string>): (r: Response)
    ensures r.body.status == "error"
    ensures r.body.stackTrace.Some? <==> nodeEnv == Some("developement")
    ensures r.body.stackTrace.Some? ==> r.body.stackTrace.value == err.Stack()
    ensures err.ValidationFailure? ==>
      && r.body.error == "ValidationError"
      && r.body.message == "Key " + err.key + ": " + err.message
      && (r.statusCode == Unauthorized <==> url == "/users/login" && err.key == "password")
      && (r.statusCode != Unauthorized ==> r.statusCode == BadRequest)
    ensures err.Server? ==>
      r.statusCode == err.error.statusCode && r.body.error == "ServerError" && r.body.message == err.error.message
    ensures err.Other? ==>
      r.statusCode == InternalServerError && r.body.error == "Unknown" && r.body.message == "Something went wrong!"
  {
    var stackTrace := StackTrace(err, nodeEnv);
    match err
    case ValidationFailure(key, message, _) =>
      var statusCode := if url == LoginUrl && key == "password" then Unauthorized else BadRequest;
      Response(statusCode, Body("error", "ValidationError", "Key " + key + ": " + message, stackTrace))
    case Server(e, _) =>
      Response(e.statusCode, Body("error", e.Name(), e.message, stackTrace))
    case Other(_) =>
      Response(InternalServerError, Body("error", "Unknown", "Something went wrong!", stackTrace))
  }

  /**
   * The errors the news core throws reach the client with their own codes
   * and messages: 500 for a failed fetch, 404 for an unknown article, 410
   * for an expired feed and 401 for a missing token.
   */
  lemma CoreErrorsReachClient(id: string, url: string, nodeEnv: Option<string>, stack: string)
    ensures ErrorHandler(Server(News.FetchError, stack), url, nodeEnv).statusCode == 500
    ensures ErrorHandler(Server(News.FetchError, stack), url, nodeEnv).body.message
         == "Something went wrong on our side, please try after sometime."
    ensures ErrorHandler(Server(News.ArticleNotFound(id), stack), url, nodeEnv).statusCode == 404
    ensures ErrorHandler(Server(News.ArticleNotFound(id), stack), url, nodeEnv).body.message
         == "Article having id '" + id + "' is not found."
    ensures ErrorHandler(Server(NewsController.Expired, stack), url, nodeEnv).statusCode == 410
    ensures ErrorHandler(Server(NewsController.Expired, stack), url, nodeEnv).body.message
         == "The resource once existed but has now been removed (expired)."
    ensures ErrorHandler(Server(Auth.TokenNotFound, stack), url, nodeEnv)
         == Response(401, Body("error", "ServerError", "Auth token not found.", StackTrace(Server(Auth.TokenNotFound, stack), nodeEnv)))
  {
  }

  /** Only the misspelled environment name shows stack traces: `development` and an unset variable hide them. */
  lemma StackHiddenOutsideDevelopement(err: Thrown, url: string)
    ensures ErrorHandler(err, url, Some("development")).body.stackTrace == None
    ensures ErrorHandler(err, url, None).body.stackTrace == None
  {
  }
}
