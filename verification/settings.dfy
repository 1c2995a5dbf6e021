/** The action's constructor: reading its inputs once into an immutable
    configuration, with the defaults and derivations it applies. */
module Settings {
  import opened Outcomes
  import opened Text
  import opened ExitPolicy

  const DefaultApiUrl := "https://ps-production-5531.up.railway.app"
  const GithubUrlPrefix := "https://github.com/"
  const DefaultCommentOnPr := "true"
  const DefaultTimeout := 600

  /** The environment variables the constructor reads; `None` when unset.
      `timeout` is INPUT_TIMEOUT after Python's `int()` conversion. */
  datatype Environment = Environment(
    apiKey: Option<string>,
    apiUrl: Option<string>,
    repoUrl: Option<string>,
    failOn: Option<string>,
    commentOnPr: Option<string>,
    timeout: Option<int>,
    githubRepository: Option<string>)

  datatype Config = Config(
    apiKey: Option<string>,
    apiUrl: string,
    repoUrl: Option<string>,
    policy: Policy,
    commentOnPr: bool,
    timeout: int)

  /** `(PRODSENSOR_API_URL or DEFAULT_API_URL).rstrip("/")`: an unset or
      empty override selects the default, and the result never ends in a
      slash. */
  function ApiUrl(override: Option<string>): (url: string)
    ensures |url| == 0 || url[|url| - 1] != '/'
    ensures !Truthy(override) ==> url == DefaultApiUrl
    ensures Truthy(override) ==> |url| <= |override.value| && url == override.value[..|url|]
    ensures Truthy(override) ==> forall i :: |url| <= i < |override.value| ==> override.value[i] == '/'
  {
    var url := if Truthy(override) then override.value else DefaultApiUrl;
    assert DefaultApiUrl[|DefaultApiUrl| - 1] == 'p';
    StripTrailingSlashes(url)
  }

  /** The repository URL: the explicit input when it is non-empty, else the
      GitHub URL of GITHUB_REPOSITORY when that is non-empty, else the
      (falsy) input as it was. */
  function RepoUrl(explicit: Option<string>, repository: Option<string>): (r: Option<string>)
    ensures Truthy(r) <==> Truthy(explicit) || Truthy(repository)
    ensures Truthy(explicit) ==> r == explicit
    ensures !Truthy(explicit) && Truthy(repository) ==> r == Some(GithubUrlPrefix + repository.value)
  {
    if !Truthy(explicit) && Truthy(repository) then Some(GithubUrlPrefix + repository.value)
    else explicit
  }

  /** `text.lower() == "true"`: the four letters of "true" in any case. */
  function CommentFlag(text: string): (b: bool)
    ensures b <==> |text| == 4 && forall i :: 0 <= i < 4 ==> text[i] == "true"[i] || text[i] == "TRUE"[i]
  {
    Lower(text) == "true"
  }

  function LoadConfig(env: Environment): (c: Config)
    ensures c.apiKey == env.apiKey
    ensures c.apiUrl == ApiUrl(env.apiUrl)
    ensures c.repoUrl == RepoUrl(env.repoUrl, env.githubRepository)
    ensures Truthy(c.repoUrl) <==> Truthy(env.repoUrl) || Truthy(env.githubRepository)
    ensures c.policy == ParsePolicy(env.failOn.GetOr(NotReadyText))
    ensures env.failOn.None? ==> c.policy == OnNotReady
    ensures c.commentOnPr == CommentFlag(env.commentOnPr.GetOr(DefaultCommentOnPr))
    ensures env.commentOnPr.None? ==> c.commentOnPr
    ensures env.timeout.Some? ==> c.timeout == env.timeout.value
    ensures env.timeout.None? ==> c.timeout == DefaultTimeout
  {
    Config(
      env.apiKey,
      ApiUrl(env.apiUrl),
      RepoUrl(env.repoUrl, env.githubRepository),
      ParsePolicy(env.failOn.GetOr(NotReadyText)),
      CommentFlag(env.commentOnPr.GetOr(DefaultCommentOnPr)),
      env.timeout.GetOr(DefaultTimeout))
  }
}
