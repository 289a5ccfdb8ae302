/** The write path `saveToGitHub`: read the current version token of
    `config.json` through the GitHub contents API, then PUT the new content
    with that token. The network is a parameter: `send` gives the backend's
    answer to each request. */
module GitHub {
  import opened Types
  import Remote

  const ApiRepos: string := "https://api.github.com/repos/"
  const CommitMessagePrefix: string := "Mise à jour des paramètres du magasin - "
  const SaveFailedMessage: string := "Échec de la sauvegarde des paramètres sur GitHub"

  /** The fields of a GitHub API answer the source reads: the file's `sha`, or
      the error `message` ("" when the field is absent). */
  datatype ApiBody = ApiBody(sha: string, message: string)

  /** The JSON body of the PUT. */
  datatype PutBody = PutBody(message: string, content: string, sha: string, branch: string)

  datatype Request = Request(verb: string, url: string, authorization: string, body: Option<PutBody>)

  /** The contents-API URL of the tenant's `config.json`. */
  function ContentsUrl(g: Coords): string {
    ApiRepos + g.username + "/" + g.repo + "/contents/config.json"
  }

  /** The metadata read that precedes the write; it names no branch. */
  function MetadataRequest(g: Coords): Request {
    Request("GET", ContentsUrl(g), "token " + g.token, None)
  }

  /** `saveToGitHub(config, githubConfig)`. `encode` stands for the browser's
      `btoa(unescape(encodeURIComponent(JSON.stringify(config, null, 2))))`, and
      `now` for the `toLocaleString('fr-FR')` timestamp. Returns the PUT it
      submitted and what the call resolves or rejects with. */
  method SaveToGitHub(config: Config, github: Coords, encode: Config -> string, now: string,
                      send: Request -> Response<ApiBody>)
    returns (put: Request, outcome: Result<ApiBody>)
    ensures put.verb == "PUT" && put.url == ContentsUrl(github) && put.authorization == "token " + github.token
    ensures put.body.Some?
    ensures put.body.value.content == encode(config)
    ensures put.body.value.message == CommitMessagePrefix + now
    // the branch defaults to main
    ensures put.body.value.branch == Remote.BranchOrMain(github)
    // the version token is the one read, or '' when the read failed in any way
    ensures var meta := send(MetadataRequest(github));
            put.body.value.sha == if meta.Answered? && meta.ok && meta.body.Some? then meta.body.value.sha else ""
    // an accepted write resolves with the answer's body
    ensures outcome.Ok? <==> send(put).Answered? && send(put).ok && send(put).body.Some?
    ensures outcome.Ok? ==> outcome.value == send(put).body.value
    // a rejected write fails with the backend's message, or the fixed one
    ensures send(put).Answered? && !send(put).ok && send(put).body.Some? ==>
              var message := send(put).body.value.message;
              outcome == Err(Thrown(if message != "" then message else SaveFailedMessage))
    ensures send(put).Answered? && send(put).body.None? ==> outcome == Err(SyntaxError)
    ensures send(put).Unreachable? ==> outcome == Err(TypeError)
  {
    var content := encode(config);
    var sha := "";
    var existing := send(MetadataRequest(github));
    if existing.Answered? && existing.ok {
      match existing.body {
        case Some(fileData) => sha := fileData.sha;
        case None => // response.json() threw; the error is caught and the write creates the file
      }
    }
    var branch := Remote.BranchOrMain(github);
    put := Request("PUT", ContentsUrl(github), "token " + github.token,
                   Some(PutBody(CommitMessagePrefix + now, content, sha, branch)));
    var response := send(put);
    match response {
      case Unreachable =>
        outcome := Err(TypeError);
      case Answered(ok, body) =>
        match body {
          case None =>
            outcome := Err(SyntaxError);
          case Some(data) =>
            if !ok {
              outcome := Err(Thrown(if data.message != "" then data.message else SaveFailedMessage));
            } else {
              outcome := Ok(data);
            }
        }
    }
  }
}
