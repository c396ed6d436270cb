/**
 * The backend (src/server.js): the bearer-token gate in front of `/fetch-stars`, the login
 * decision, and `fetchStars`, which serves a repository's stargazer list from the Repo
 * collection or else fetches it once from the hosting API and stores it.
 *
 * Foreign code is abstracted: signature checking and signing of access tokens (`verify`,
 * `sign`), password-hash comparison (`compare`) and the hosting API (`upstream`, a reply per
 * request URL) are parameters; the Repo collection is the `repos` map of a `Backend` object.
 */
module Server {
  import opened Common
  import opened JsString

  // ---------------------------------------------------------------- bearer-token gate

  /** The payload a valid access token carries: `{username}`. */
  datatype Claims = Claims(username: string)

  /** What `authenticateToken` does with a request. */
  datatype GateOutcome =
    | Unauthorized        // sendStatus(401): no token
    | Forbidden           // sendStatus(403): the token does not verify
    | Proceed(user: Claims) // req.user is set and next() is called once

  /**
   * `authHeader && authHeader.split(' ')[1]`: an absent header gives no token; an empty
   * header is falsy and is itself the token `""`; otherwise the token is the second
   * space-separated field, absent when the header has no space.
   */
  function BearerToken(authHeader: Option<string>): (token: Option<string>)
    ensures authHeader.None? ==> token.None?
    ensures authHeader == Some("") ==> token == Some("")
    ensures authHeader.Some? && authHeader.value != "" ==>
      (token.Some? <==> ' ' in authHeader.value)
    ensures authHeader.Some? && authHeader.value != "" && token.Some? ==> ' ' !in token.value
  {
    match authHeader
    case None => None
    case Some(h) =>
      if h == "" then Some("")
      else
        var fields := Split(h, ' ');
        if |fields| >= 2 then Some(fields[1]) else None
  }

  /** The token is exactly the text between the first space and the next space or the end. */
  lemma {:induction false} BearerTokenField(scheme: string, token: string, rest: string)
    requires ' ' !in scheme && ' ' !in token
    requires rest == "" || rest[0] == ' '
    ensures BearerToken(Some(scheme + " " + token + rest)) == Some(token)
  {
    var h := scheme + " " + token + rest;
    SplitPrefix(scheme, " " + token + rest, ' ');
    assert h == scheme + (" " + token + rest);
    var after := token + rest;
    assert (" " + after)[0] == ' ' && (" " + after)[1..] == after;
    assert " " + token + rest == " " + after;
    SplitPrefix(token, rest, ' ');
    assert Split(" " + after, ' ') == [""] + Split(after, ' ');
    if rest == "" {
      assert Split(rest, ' ')[0] == "";
    } else {
      assert rest == [' '] + rest[1..];
      assert Split(rest, ' ')[0] == "";
    }
    assert token + "" == token;
  }

  /** `authenticateToken` (without the Express plumbing): 401, then 403, then proceed. */
  function Authenticate(authHeader: Option<string>, verify: string -> Option<Claims>)
    : (g: GateOutcome)
    ensures g == Unauthorized <==> BearerToken(authHeader).None?
    ensures g == Forbidden <==>
      BearerToken(authHeader).Some? && verify(BearerToken(authHeader).value).None?
    ensures g.Proceed? ==> verify(BearerToken(authHeader).value) == Some(g.user)
  {
    match BearerToken(authHeader)
    case None => Unauthorized
    case Some(token) =>
      match verify(token)
      case None => Forbidden
      case Some(user) => Proceed(user)
  }

  // ---------------------------------------------------------------- login

  /** The reply of `/login`: a plain-text status reply, or the JSON `{accessToken}`. */
  datatype LoginReply = Text(status: int, text: string) | TokenJson(accessToken: string)

  /**
   * `/login` over the User collection (username to password hash). `compare` answers
   * `bcrypt.compare` and `sign` answers `jwt.sign` with the shared secret; either gives
   * `None` when it throws inside the `try`.
   */
  function Login(users: map<string, string>, username: string, password: string,
                 compare: (string, string) -> Option<bool>, sign: Claims -> Option<string>)
    : (r: LoginReply)
    ensures username !in users ==> r == Text(400, "Cannot find user")
    ensures r.TokenJson? <==>
      username in users && compare(password, users[username]) == Some(true)
      && sign(Claims(username)).Some?
    ensures r.TokenJson? ==> Some(r.accessToken) == sign(Claims(username))
    ensures username in users && compare(password, users[username]) == Some(false) ==>
      r == Text(200, "Not Allowed")
    ensures username in users && compare(password, users[username]).None? ==>
      r == Text(500, "Error logging in")
    ensures (username in users && compare(password, users[username]) == Some(true)
             && sign(Claims(username)).None?) ==> r == Text(500, "Error logging in")
  {
    if username !in users then Text(400, "Cannot find user")
    else
      match compare(password, users[username])
      case Some(true) =>
        (match sign(Claims(username))
         case Some(token) => TokenJson(token)
         case None => Text(500, "Error logging in"))
      case Some(false) => Text(200, "Not Allowed")
      case None => Text(500, "Error logging in")
  }

  /**
   * A token handed out by `/login`, sent back as `Bearer <token>`, passes the gate with the
   * user's claims, given that the token library accepts what it signed and that the token
   * has no space in it (JSON web tokens never do).
   */
  lemma LoginTokenPassesGate(users: map<string, string>, username: string, password: string,
                             compare: (string, string) -> Option<bool>,
                             sign: Claims -> Option<string>, verify: string -> Option<Claims>)
    requires Login(users, username, password, compare, sign).TokenJson?
    requires var token := Login(users, username, password, compare, sign).accessToken;
      verify(token) == Some(Claims(username)) && ' ' !in token
    ensures Authenticate(Some("Bearer " + Login(users, username, password, compare, sign).accessToken),
                         verify) == Proceed(Claims(username))
  {
    var token := Login(users, username, password, compare, sign).accessToken;
    BearerTokenField("Bearer", token, "");
    assert "Bearer " + token == "Bearer" + " " + token + "";
  }

  // ---------------------------------------------------------------- stars

  /** One stargazer as the hosting API reports it: `starred_at` and `user.id`. */
  datatype Item = Item(starredAt: string, userId: int)

  /** One stored star record `{date, count}`. */
  datatype Star = Star(date: string, count: int)

  /** The hosting API's answer to a stargazers request. */
  datatype Upstream =
    | Items(items: seq<Item>)
    // a thrown error: the HTTP status when there was a response, and its message
    | Failed(status: Option<int>, message: string)

  datatype FetchError = RepositoryNotFound | Rethrown(message: string)

  /** `error.message` of what `fetchStars` throws. */
  function Message(e: FetchError): (m: string)
    ensures e.Rethrown? ==> m == e.message
    ensures e == RepositoryNotFound ==> m == "Repository not found or not public"
  {
    match e
    case RepositoryNotFound => "Repository not found or not public"
    case Rethrown(m) => m
  }

  /** `[owner, repo]` of `repoUrl.split('/').slice(-2)`; `repo` is undefined for one piece. */
  datatype OwnerRepo = OwnerRepo(owner: string, repo: Option<string>)

  function LastTwo(repoUrl: string): (p: OwnerRepo)
    ensures p.repo.Some? <==> '/' in repoUrl
    ensures p.repo.None? ==> p.owner == repoUrl
    ensures '/' !in p.owner && (p.repo.Some? ==> '/' !in p.repo.value)
  {
    var parts := Split(repoUrl, '/');
    if |parts| >= 2 then OwnerRepo(parts[|parts| - 2], Some(parts[|parts| - 1]))
    else
      JoinSplit([repoUrl], '/');
      OwnerRepo(parts[0], None)
  }

  /** Owner and repository are the last two `/`-separated pieces of the URL. */
  lemma LastTwoOfJoin(pieces: seq<string>)
    requires |pieces| >= 2
    requires forall i :: 0 <= i < |pieces| ==> '/' !in pieces[i]
    ensures LastTwo(Join(pieces, '/')) ==
      OwnerRepo(pieces[|pieces| - 2], Some(pieces[|pieces| - 1]))
  {
    JoinSplit(pieces, '/');
    LastTwoOfSplit(Join(pieces, '/'), pieces);
  }

  lemma LastTwoOfSplit(url: string, pieces: seq<string>)
    requires |pieces| >= 2 && Split(url, '/') == pieces
    ensures LastTwo(url) == OwnerRepo(pieces[|pieces| - 2], Some(pieces[|pieces| - 1]))
  {
  }

  lemma LastTwoExample()
    ensures LastTwo("github.com/a/b") == OwnerRepo("a", Some("b"))
  {
    assert Join(["github.com", "a", "b"], '/') == "github.com/a/b";
    LastTwoOfJoin(["github.com", "a", "b"]);
  }

  /** The stargazers URL; an undefined `repo` is rendered as `undefined` by the template. */
  function StargazersUrl(p: OwnerRepo): (url: string)
    ensures "https://api.github.com/repos/" + p.owner + "/" <= url
    ensures p.repo.None? ==> url == "https://api.github.com/repos/" + p.owner + "/undefined/stargazers"
  {
    "https://api.github.com/repos/" + p.owner + "/"
      + (match p.repo case Some(r) => r case None => "undefined")
      + "/stargazers"
  }

  /** The fixed part of the request URL, as `/`-separated pieces. */
  lemma HostPieces()
    ensures Join(["https:", "", "api.github.com", "repos"], '/') == "https://api.github.com/repos"
  {
    JoinCons("api.github.com", ["repos"], '/');
    assert Join(["api.github.com", "repos"], '/') == "api.github.com/repos" by { HostJoinedFrom2(); }
    assert [""] + ["api.github.com", "repos"] == ["", "api.github.com", "repos"];
    JoinCons("", ["api.github.com", "repos"], '/');
    assert Join(["", "api.github.com", "repos"], '/') == "/api.github.com/repos" by { HostJoinedFrom1(); }
    assert ["https:"] + ["", "api.github.com", "repos"] == ["https:", "", "api.github.com", "repos"];
    JoinCons("https:", ["", "api.github.com", "repos"], '/');
    HostJoinedFrom0();
  }

  // The literal steps of HostPieces, each kept to one concatenation.
  lemma HostJoinedFrom2()
    ensures "api.github.com" + "/" + "repos" == "api.github.com/repos"
  {
  }

  lemma HostJoinedFrom1()
    ensures "" + "/" + "api.github.com/repos" == "/api.github.com/repos"
  {
  }

  lemma HostJoinedFrom0()
    ensures "https:" + "/" + "/api.github.com/repos" == "https://api.github.com/repos"
  {
  }

  /** The template's literal pieces, regrouped around the separators. */
  lemma StargazersUrlShape(owner: string, repo: string)
    ensures StargazersUrl(OwnerRepo(owner, Some(repo)))
      == "https://api.github.com/repos" + "/" + (owner + "/" + (repo + "/" + "stargazers"))
  {
    assert "https://api.github.com/repos/" == "https://api.github.com/repos" + "/";
    assert "/stargazers" == "/" + "stargazers";
  }

  /** The request URL's `/`-separated pieces: host path, then owner, then repo. */
  lemma StargazersUrlPieces(owner: string, repo: string)
    requires '/' !in owner && '/' !in repo
    ensures Split(StargazersUrl(OwnerRepo(owner, Some(repo))), '/')
      == ["https:", "", "api.github.com", "repos", owner, repo, "stargazers"]
  {
    var host := ["https:", "", "api.github.com", "repos"];
    var path := [owner, repo, "stargazers"];
    HostPieces();
    JoinCons(repo, ["stargazers"], '/');
    assert [owner] + [repo, "stargazers"] == path;
    JoinCons(owner, [repo, "stargazers"], '/');
    JoinAppend(host, path, '/');
    StargazersUrlShape(owner, repo);
    var pieces := host + path;
    assert pieces == ["https:", "", "api.github.com", "repos", owner, repo, "stargazers"];
    assert forall i :: 0 <= i < |pieces| ==> '/' !in pieces[i] by { HostSlashFree(); }
    JoinSplit(pieces, '/');
  }

  lemma HostSlashFree()
    ensures '/' !in "https:" && '/' !in "api.github.com" && '/' !in "repos" && '/' !in "stargazers"
  {
  }

  /** `response.data.map(item => ({date: item.starred_at, count: item.user.id}))`. */
  function ToStars(items: seq<Item>): (stars: seq<Star>)
    ensures |stars| == |items|
    ensures forall i :: 0 <= i < |items| ==>
      stars[i].date == items[i].starredAt && stars[i].count == items[i].userId
  {
    if |items| == 0 then []
    else [Star(items[0].starredAt, items[0].userId)] + ToStars(items[1..])
  }

  /** The error `fetchStars` throws for a failed request: a 404 becomes its own error. */
  function Rejection(status: Option<int>, message: string): (e: FetchError)
    ensures e == RepositoryNotFound <==> status == Some(404)
    ensures status != Some(404) ==> Message(e) == message
  {
    if status == Some(404) then RepositoryNotFound else Rethrown(message)
  }

  /** One call of `fetchStars`: its result, the Repo collection after it, the requests made. */
  datatype FetchStep = FetchStep(result: Result<seq<Star>, FetchError>,
                                 repos: map<string, seq<Star>>,
                                 requests: seq<string>)

  /** What `fetchStars(repoUrl)` does, starting from the collection `repos`. */
  function Fetch(repos: map<string, seq<Star>>, repoUrl: string, upstream: string -> Upstream)
    : (step: FetchStep)
    ensures step.requests == [] <==> repoUrl in repos
    ensures repoUrl !in repos ==> step.requests == [StargazersUrl(LastTwo(repoUrl))]
    ensures forall u :: u in repos ==> u in step.repos && step.repos[u] == repos[u]
    ensures step.repos.Keys <= repos.Keys + {repoUrl}
    ensures step.result.Ok? ==> repoUrl in step.repos && step.repos[repoUrl] == step.result.value
    ensures step.result.Err? ==> step.repos == repos
  {
    if repoUrl in repos then FetchStep(Ok(repos[repoUrl]), repos, [])
    else
      var api := StargazersUrl(LastTwo(repoUrl));
      match upstream(api)
      case Items(items) =>
        var stars := ToStars(items);
        FetchStep(Ok(stars), repos[repoUrl := stars], [api])
      case Failed(status, message) =>
        FetchStep(Err(Rejection(status, message)), repos, [api])
  }

  /** A cache hit returns the stored list and makes no request and no write. */
  lemma FetchHit(repos: map<string, seq<Star>>, repoUrl: string, upstream: string -> Upstream)
    requires repoUrl in repos
    ensures Fetch(repos, repoUrl, upstream) == FetchStep(Ok(repos[repoUrl]), repos, [])
  {
  }

  /**
   * A miss asks the hosting API exactly once, for the owner/repo of the URL; on success the
   * list returned has the upstream items' length and order, and it is the one record added.
   */
  lemma FetchMiss(repos: map<string, seq<Star>>, repoUrl: string, upstream: string -> Upstream)
    requires repoUrl !in repos
    ensures var step := Fetch(repos, repoUrl, upstream);
      var api := StargazersUrl(LastTwo(repoUrl));
      && step.requests == [api]
      && (upstream(api).Items? ==>
            && step.result.Ok?
            && |step.result.value| == |upstream(api).items|
            && (forall i :: 0 <= i < |upstream(api).items| ==>
                  step.result.value[i] == Star(upstream(api).items[i].starredAt,
                                               upstream(api).items[i].userId))
            && step.repos == repos[repoUrl := step.result.value])
      && (upstream(api).Failed? ==>
            && step.result == Err(Rejection(upstream(api).status, upstream(api).message))
            && step.repos == repos)
  {
  }

  /** Asking again for a URL that was fetched returns the same list with no request. */
  lemma FetchAgain(repos: map<string, seq<Star>>, repoUrl: string,
                   upstream: string -> Upstream, later: string -> Upstream)
    requires Fetch(repos, repoUrl, upstream).result.Ok?
    ensures var first := Fetch(repos, repoUrl, upstream);
      Fetch(first.repos, repoUrl, later) == FetchStep(first.result, first.repos, [])
  {
  }

  /**
   * The server does not refuse an empty URL: an uncached `""` is looked up upstream as owner
   * `""` and repository `undefined`.
   */
  lemma EmptyUrlIsFetched(repos: map<string, seq<Star>>, upstream: string -> Upstream)
    requires "" !in repos
    ensures Fetch(repos, "", upstream).requests
      == ["https://api.github.com/repos//undefined/stargazers"]
  {
    assert LastTwo("") == OwnerRepo("", None);
    var prefix := "https://api.github.com/repos/";
    assert prefix + "" == prefix;
    assert prefix + "/undefined/stargazers" == "https://api.github.com/repos//undefined/stargazers";
  }

  // ---------------------------------------------------------------- the /fetch-stars route

  /** The reply of `/fetch-stars`. */
  datatype HttpResponse =
    | Status(code: int)                               // sendStatus
    | StarsJson(repo1: seq<Star>, repo2: seq<Star>)   // res.json({repo1, repo2})
    | ErrorJson(code: int, error: string)             // res.status(code).json({error})

  datatype RouteStep = RouteStep(response: HttpResponse,
                                 repos: map<string, seq<Star>>,
                                 requests: seq<string>)

  /** `/fetch-stars` behind `authenticateToken`: repo1 is fetched, then repo2. */
  function FetchStarsRoute(repos: map<string, seq<Star>>, authHeader: Option<string>,
                           repo1: string, repo2: string,
                           verify: string -> Option<Claims>, upstream: string -> Upstream)
    : (step: RouteStep)
    ensures forall u :: u in repos ==> u in step.repos && step.repos[u] == repos[u]
    ensures step.repos.Keys <= repos.Keys + {repo1, repo2}
    ensures |step.requests| <= 2
    ensures step.response.StarsJson? ==>
      && repo1 in step.repos && step.repos[repo1] == step.response.repo1
      && repo2 in step.repos && step.repos[repo2] == step.response.repo2
  {
    match Authenticate(authHeader, verify)
    case Unauthorized => RouteStep(Status(401), repos, [])
    case Forbidden => RouteStep(Status(403), repos, [])
    case Proceed(_) =>
      var first := Fetch(repos, repo1, upstream);
      match first.result
      case Err(e) => RouteStep(ErrorJson(500, Message(e)), first.repos, first.requests)
      case Ok(data1) =>
        var second := Fetch(first.repos, repo2, upstream);
        match second.result
        case Err(e) =>
          RouteStep(ErrorJson(500, Message(e)), second.repos, first.requests + second.requests)
        case Ok(data2) =>
          RouteStep(StarsJson(data1, data2), second.repos, first.requests + second.requests)
  }

  /** A request the gate turns away touches nothing: no fetch, no request, no write. */
  lemma RouteGateFirst(repos: map<string, seq<Star>>, authHeader: Option<string>,
                       repo1: string, repo2: string,
                       verify: string -> Option<Claims>, upstream: string -> Upstream)
    requires !Authenticate(authHeader, verify).Proceed?
    ensures var step := FetchStarsRoute(repos, authHeader, repo1, repo2, verify, upstream);
      && step.repos == repos && step.requests == []
      && step.response == Status(if BearerToken(authHeader).None? then 401 else 403)
  {
  }

  /**
   * Past the gate, repo1 is fetched before repo2 and repo2 only when repo1 succeeded; the
   * reply carries both lists or, for the first failure, a 500 with its message and nothing
   * else.
   */
  lemma RouteSequencing(repos: map<string, seq<Star>>, authHeader: Option<string>,
                        repo1: string, repo2: string,
                        verify: string -> Option<Claims>, upstream: string -> Upstream)
    requires Authenticate(authHeader, verify).Proceed?
    ensures var step := FetchStarsRoute(repos, authHeader, repo1, repo2, verify, upstream);
      var first := Fetch(repos, repo1, upstream);
      var second := Fetch(first.repos, repo2, upstream);
      && (first.result.Err? ==>
            && step.requests == first.requests
            && step.repos == repos
            && step.response == ErrorJson(500, Message(first.result.error)))
      && (first.result.Ok? ==>
            && step.requests == first.requests + second.requests
            && step.repos == second.repos)
      && (first.result.Ok? && second.result.Err? ==>
            step.response == ErrorJson(500, Message(second.result.error)))
      && (step.response.StarsJson? <==> first.result.Ok? && second.result.Ok?)
      && (step.response.StarsJson? ==>
            step.response == StarsJson(first.result.value, second.result.value))
      && (!step.response.StarsJson? ==> step.response.ErrorJson? && step.response.code == 500)
  {
  }

  /** With repo1 stored and repo2 not, the route asks the hosting API once, for repo2. */
  lemma RouteOneCached(repos: map<string, seq<Star>>, authHeader: Option<string>,
                       repo1: string, repo2: string,
                       verify: string -> Option<Claims>, upstream: string -> Upstream)
    requires Authenticate(authHeader, verify).Proceed?
    requires repo1 in repos && repo2 !in repos
    ensures FetchStarsRoute(repos, authHeader, repo1, repo2, verify, upstream).requests
      == [StargazersUrl(LastTwo(repo2))]
  {
  }

  /** Repeating a successful comparison makes no request and gives the same reply. */
  lemma RouteRepeat(repos: map<string, seq<Star>>, authHeader: Option<string>,
                    repo1: string, repo2: string,
                    verify: string -> Option<Claims>, upstream: string -> Upstream,
                    later: string -> Upstream)
    requires FetchStarsRoute(repos, authHeader, repo1, repo2, verify, upstream).response.StarsJson?
    ensures var step := FetchStarsRoute(repos, authHeader, repo1, repo2, verify, upstream);
      FetchStarsRoute(step.repos, authHeader, repo1, repo2, verify, later)
        == RouteStep(step.response, step.repos, [])
  {
  }

  /**
   * The server state: the Repo collection (URL to stored star list) and, for the proofs, the
   * hosting-API requests made so far, in order.
   */
  class Backend {
    var repos: map<string, seq<Star>>
    ghost var requests: seq<string>

    /** Connects to the Repo collection as it is stored, with no request made yet. */
    constructor (stored: map<string, seq<Star>>)
      ensures repos == stored && requests == []
    {
      repos := stored;
      requests := [];
    }

    /** `fetchStars(repoUrl)`. */
    method FetchStars(repoUrl: string, upstream: string -> Upstream)
      returns (r: Result<seq<Star>, FetchError>)
      modifies this
      ensures var step := Fetch(old(repos), repoUrl, upstream);
        r == step.result && repos == step.repos && requests == old(requests) + step.requests
    {
      if repoUrl in repos {
        return Ok(repos[repoUrl]);
      }
      var api := StargazersUrl(LastTwo(repoUrl));
      var reply := upstream(api);
      requests := requests + [api];
      match reply {
        case Items(items) =>
          var stars := ToStars(items);
          repos := repos[repoUrl := stars];
          r := Ok(stars);
        case Failed(status, message) =>
          r := Err(Rejection(status, message));
      }
    }

    /** The `/fetch-stars` handler behind `authenticateToken`. */
    method HandleFetchStars(authHeader: Option<string>, repo1: string, repo2: string,
                            verify: string -> Option<Claims>, upstream: string -> Upstream)
      returns (response: HttpResponse)
      modifies this
      ensures var step := FetchStarsRoute(old(repos), authHeader, repo1, repo2, verify, upstream);
        response == step.response && repos == step.repos
        && requests == old(requests) + step.requests
    {
      match Authenticate(authHeader, verify) {
        case Unauthorized => return Status(401);
        case Forbidden => return Status(403);
        case Proceed(_) =>
      }
      var data1 := FetchStars(repo1, upstream);
      if data1.Err? {
        return ErrorJson(500, Message(data1.error));
      }
      var data2 := FetchStars(repo2, upstream);
      if data2.Err? {
        return ErrorJson(500, Message(data2.error));
      }
      response := StarsJson(data1.value, data2.value);
    }
  }
}
