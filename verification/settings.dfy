/** The module-level configuration of the agent, read once from the
    environment at import time (greenops-agent/self_heal.py lines 10-12). */
module Settings {
  import opened Text

  /** The process environment: variable name to value. */
  type Environment = map<string, string>

  /** Configuration of the watcher: namespace to watch, whether to delete
      crashing pods, and which suggestion template to use. */
  datatype Config = Config(namespace: string, autoApply: bool, useGemini: bool)

  const DefaultNamespace := "boutique"

  /** `os.getenv(key, default)`: a variable that is set, even to the empty
      string, wins over the default. */
  function Getenv(env: Environment, key: string, default: string): (v: string)
    ensures key in env ==> v == env[key]
    ensures key !in env ==> v == default
  {
    if key in env then env[key] else default
  }

  /** `os.getenv(key, "false").lower() == "true"`. */
  function ParseFlag(env: Environment, key: string): (b: bool)
    ensures b <==> key in env && SpellsTrue(env[key])
  {
    LowerIsTrueIff(Getenv(env, key, "false"));
    LowerIsTrueIff("false");
    AsciiLower(Getenv(env, key, "false")) == "true"
  }

  /** Reads `NAMESPACE`, `AUTO_APPLY` and `USE_GEMINI`. */
  function LoadConfig(env: Environment): (c: Config)
    ensures "NAMESPACE" in env ==> c.namespace == env["NAMESPACE"]
    ensures "NAMESPACE" !in env ==> c.namespace == DefaultNamespace
    ensures c.autoApply <==> "AUTO_APPLY" in env && SpellsTrue(env["AUTO_APPLY"])
    ensures c.useGemini <==> "USE_GEMINI" in env && SpellsTrue(env["USE_GEMINI"])
  {
    Config(
      Getenv(env, "NAMESPACE", DefaultNamespace),
      ParseFlag(env, "AUTO_APPLY"),
      ParseFlag(env, "USE_GEMINI"))
  }
}
