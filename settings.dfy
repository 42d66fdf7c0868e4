/**
 * Environment selection and shared settings (config/common.py). The process
 * environment is a parameter: `env` is the value of the `ENV` variable, or
 * `None` when it is unset.
 */
module Settings {
  import opened Wrappers

  /** The developer's chat user id. */
  const MARTIN: int := 13333606

  /** User ids allowed to run the restricted commands. */
  const LIST_OF_ADMINS: seq<int> := [MARTIN]

  /** The active environment name: `ENV`, or "dev" when it is unset. */
  function ActiveEnv(env: Option<string>): (name: string)
    ensures env.None? ==> name == "dev"
    ensures env.Some? ==> name == env.value
  {
    match env
    case None => "dev"
    case Some(value) => value
  }

  /** The bot runs remotely (production or staging): exactly when `ENV` is "pro" or "sta". */
  function DeployServer(env: Option<string>): (deployed: bool)
    ensures deployed <==> env == Some("pro") || env == Some("sta")
  {
    ActiveEnv(env) in ["pro", "sta"]
  }

  /** The bot runs in production: exactly when `ENV` is "pro". */
  function Production(env: Option<string>): (production: bool)
    ensures production <==> env == Some("pro")
  {
    ActiveEnv(env) == "pro"
  }

  /** Production is a remote deployment; the default environment is neither. */
  lemma ProductionIsDeployed(env: Option<string>)
    ensures Production(env) ==> DeployServer(env)
    ensures env.None? ==> !Production(env) && !DeployServer(env)
    ensures !Production(Some("dev")) && !DeployServer(Some("dev"))
  {
  }

  /** The developer is an administrator. */
  lemma MartinIsAdmin()
    ensures MARTIN in LIST_OF_ADMINS
  {
  }
}
