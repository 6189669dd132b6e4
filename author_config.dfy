/**
 * `configureGitUserInfo`: the author identity for the commit, read from the
 * `[user]` section of a git configuration file with placeholder defaults.
 *
 * Expanding `~` in the configuration path and parsing the INI file are not
 * modelled; what reading the file yields is an input.
 */
module AuthorConfig {
  import opened Errors

  /** Name and e-mail address stamped on the commit. */
  datatype AuthorInfo = AuthorInfo(name: string, email: string)

  const DefaultName: string := "Your Name"
  const DefaultEmail: string := "your.email@example.com"

  /** Go's zero value `AuthorInfo{}`. */
  const NoAuthor: AuthorInfo := AuthorInfo("", "")

  /**
   * What reading the configuration file yields: the read error, or the
   * `user.name` and `user.email` keys (`None` when the section or key is
   * absent from the file).
   */
  datatype GitConfig =
    | ReadFailed(err: Error)
    | Loaded(userName: Option<string>, userEmail: Option<string>)

  /** The INI library's `Key(...).String()`: an absent key reads as the empty string. */
  function KeyString(key: Option<string>): string
  {
    match key
    case None => ""
    case Some(v) => v
  }

  datatype Configured = Configured(author: AuthorInfo, err: Option<Error>)

  /**
   * The identity `configureGitUserInfo` returns. Each field is decided by its
   * own key alone: a non-empty value replaces the placeholder, an empty or
   * absent one leaves it. A read failure gives the zero identity and the
   * read error, unchanged.
   */
  function UserInfo(config: GitConfig): (r: Configured)
    ensures r.err.Some? <==> config.ReadFailed?
    ensures config.ReadFailed? ==> r.author == NoAuthor && r.err == Some(config.err)
    ensures config.Loaded? ==>
              (KeyString(config.userName) != "" ==> r.author.name == KeyString(config.userName))
              && (KeyString(config.userName) == "" ==> r.author.name == DefaultName)
    ensures config.Loaded? ==>
              (KeyString(config.userEmail) != "" ==> r.author.email == KeyString(config.userEmail))
              && (KeyString(config.userEmail) == "" ==> r.author.email == DefaultEmail)
    ensures r.err.None? ==> r.author.name != "" && r.author.email != ""
  {
    match config
    case ReadFailed(e) => Configured(NoAuthor, Some(e))
    case Loaded(n, m) =>
      var defaults := AuthorInfo(DefaultName, DefaultEmail);
      var withName := if KeyString(n) != "" then defaults.(name := KeyString(n)) else defaults;
      var withEmail := if KeyString(m) != "" then withName.(email := KeyString(m)) else withName;
      Configured(withEmail, None)
  }

  /** Starts from the placeholders and overwrites each field whose key is non-empty. */
  method ConfigureGitUserInfo(config: GitConfig) returns (ai: AuthorInfo, err: Option<Error>)
    ensures Configured(ai, err) == UserInfo(config)
  {
    ai := AuthorInfo(DefaultName, DefaultEmail);
    if config.ReadFailed? {
      return NoAuthor, Some(config.err);
    }
    var name := KeyString(config.userName);
    var email := KeyString(config.userEmail);
    if name != "" {
      ai := ai.(name := name);
    }
    if email != "" {
      ai := ai.(email := email);
    }
    err := None;
  }
}
