/** Settings read from the process environment, with their defaults. */
module Config {

  /** The process environment; a variable that is absent is unset. */
  type Environment = map<string, string>

  datatype Config = Config(
    port: string,
    databaseUrl: string,
    workspaces: string,        // "name1:/path1,name2:/path2"
    backupRepo: string,
    gitRemote: string,
    sshKeyPath: string,
    telegramBotToken: string,
    telegramChatId: string)

  const DefaultPort := "3458"
  const DefaultDatabaseUrl := "./data/backup.db"

  /** The variables the configuration is read from. */
  const Variables: set<string> := {"PORT", "DATABASE_URL", "WORKSPACES", "BACKUP_REPO", "GIT_REMOTE",
                                   "SSH_KEY_PATH", "TELEGRAM_BOT_TOKEN", "TELEGRAM_CHAT_ID"}

  /** The variable's value when it is set to something non-empty; the default otherwise. */
  function GetEnv(env: Environment, key: string, default: string): (r: string)
    ensures key in env && env[key] != "" ==> r == env[key]
    ensures key !in env || env[key] == "" ==> r == default
  {
    if key in env && env[key] != "" then env[key] else default
  }

  /** A variable set to the empty string reads exactly as if it were unset. */
  lemma EmptyMeansUnset(env: Environment, key: string, default: string)
    ensures GetEnv(env[key := ""], key, default) == GetEnv(env - {key}, key, default) == default
  {
  }

  /** `v` is what the variable `key` gives: its value when set and non-empty, the default otherwise. */
  predicate ReadsAs(env: Environment, key: string, default: string, v: string) {
    && (key in env && env[key] != "" ==> v == env[key])
    && (key !in env || env[key] == "" ==> v == default)
  }

  /** The configuration: every setting is its variable when set, else its default. */
  function Load(env: Environment): (c: Config)
    ensures c.port != "" && c.databaseUrl != ""
    ensures c.workspaces == "" <==> "WORKSPACES" !in env || env["WORKSPACES"] == ""
    ensures c.sshKeyPath == "" <==> "SSH_KEY_PATH" !in env || env["SSH_KEY_PATH"] == ""
    ensures c.telegramBotToken == "" <==> "TELEGRAM_BOT_TOKEN" !in env || env["TELEGRAM_BOT_TOKEN"] == ""
    ensures c.telegramChatId == "" <==> "TELEGRAM_CHAT_ID" !in env || env["TELEGRAM_CHAT_ID"] == ""
    ensures "PORT" in env && env["PORT"] != "" ==> c.port == env["PORT"]
    ensures "WORKSPACES" in env ==> c.workspaces == env["WORKSPACES"]
    ensures ReadsAs(env, "PORT", DefaultPort, c.port)
    ensures ReadsAs(env, "DATABASE_URL", DefaultDatabaseUrl, c.databaseUrl)
    ensures ReadsAs(env, "WORKSPACES", "", c.workspaces)
    ensures ReadsAs(env, "BACKUP_REPO", "", c.backupRepo)
    ensures ReadsAs(env, "GIT_REMOTE", "", c.gitRemote)
    ensures ReadsAs(env, "SSH_KEY_PATH", "", c.sshKeyPath)
    ensures ReadsAs(env, "TELEGRAM_BOT_TOKEN", "", c.telegramBotToken)
    ensures ReadsAs(env, "TELEGRAM_CHAT_ID", "", c.telegramChatId)
  {
    Config(
      GetEnv(env, "PORT", DefaultPort),
      GetEnv(env, "DATABASE_URL", DefaultDatabaseUrl),
      GetEnv(env, "WORKSPACES", ""),
      GetEnv(env, "BACKUP_REPO", ""),
      GetEnv(env, "GIT_REMOTE", ""),
      GetEnv(env, "SSH_KEY_PATH", ""),
      GetEnv(env, "TELEGRAM_BOT_TOKEN", ""),
      GetEnv(env, "TELEGRAM_CHAT_ID", ""))
  }

  /** The environment that sets each variable to the given configuration's value. */
  function Environ(c: Config): (env: Environment)
    ensures env.Keys == Variables
  {
    map["PORT" := c.port, "DATABASE_URL" := c.databaseUrl, "WORKSPACES" := c.workspaces,
        "BACKUP_REPO" := c.backupRepo, "GIT_REMOTE" := c.gitRemote, "SSH_KEY_PATH" := c.sshKeyPath,
        "TELEGRAM_BOT_TOKEN" := c.telegramBotToken, "TELEGRAM_CHAT_ID" := c.telegramChatId]
  }

  /**
    Loading reads every setting back from its own variable: any configuration whose port and
    database path are non-empty is exactly what its environment loads as.
   */
  lemma LoadEnviron(c: Config)
    requires c.port != "" && c.databaseUrl != ""
    ensures Load(Environ(c)) == c
  {
  }

  /** Variables outside the eight settings are ignored. */
  lemma LoadIgnoresOthers(env: Environment, key: string, value: string)
    requires key !in Variables
    ensures Load(env[key := value]) == Load(env)
  {
  }

  /** With nothing set, the port and database path take their defaults and every other setting is empty. */
  lemma LoadEmptyEnvironment()
    ensures Load(map[]) == Config("3458", "./data/backup.db", "", "", "", "", "", "")
  {
  }
}
