/** Resolution of the three directories the blog reads from and writes to
    (config/constants.go). The process environment is a parameter: `getenv`
    answers what `os.Getenv` would, with "" for an unset variable. */
module Config {

  const DefaultPostsDir := "posts"
  const DefaultOutputDir := "public"
  const DefaultTemplateDir := "templates"

  datatype Paths = Paths(postsDir: string, outputDir: string, templateDir: string)

  /** An empty setting falls back to `fallback`; any other setting is kept as given. */
  function OrDefault(value: string, fallback: string): string
  {
    if value == "" then fallback else value
  }

  /** Reads POSTS_DIR, OUTPUT_DIR and TEMPLATE_DIR, each defaulting on its own. */
  function InitilizeConstants(getenv: string -> string): (r: Paths)
    ensures getenv("POSTS_DIR") == "" ==> r.postsDir == "posts"
    ensures getenv("OUTPUT_DIR") == "" ==> r.outputDir == "public"
    ensures getenv("TEMPLATE_DIR") == "" ==> r.templateDir == "templates"
    ensures getenv("POSTS_DIR") != "" ==> r.postsDir == getenv("POSTS_DIR")
    ensures getenv("OUTPUT_DIR") != "" ==> r.outputDir == getenv("OUTPUT_DIR")
    ensures getenv("TEMPLATE_DIR") != "" ==> r.templateDir == getenv("TEMPLATE_DIR")
    ensures r.postsDir != "" && r.outputDir != "" && r.templateDir != ""
  {
    Paths(
      OrDefault(getenv("POSTS_DIR"), DefaultPostsDir),
      OrDefault(getenv("OUTPUT_DIR"), DefaultOutputDir),
      OrDefault(getenv("TEMPLATE_DIR"), DefaultTemplateDir))
  }

  /** Each directory is decided by its own variable alone: two environments
      that agree on one variable agree on the directory it sets. */
  lemma EachFieldOwnVariable(env1: string -> string, env2: string -> string)
    ensures env1("POSTS_DIR") == env2("POSTS_DIR") ==>
      InitilizeConstants(env1).postsDir == InitilizeConstants(env2).postsDir
    ensures env1("OUTPUT_DIR") == env2("OUTPUT_DIR") ==>
      InitilizeConstants(env1).outputDir == InitilizeConstants(env2).outputDir
    ensures env1("TEMPLATE_DIR") == env2("TEMPLATE_DIR") ==>
      InitilizeConstants(env1).templateDir == InitilizeConstants(env2).templateDir
  {
  }

  /** Resolution is stable: an environment that already holds the resolved
      directories resolves to the same paths again. */
  lemma ResolvedPathsAreStable(getenv: string -> string, again: string -> string)
    requires again("POSTS_DIR") == InitilizeConstants(getenv).postsDir
    requires again("OUTPUT_DIR") == InitilizeConstants(getenv).outputDir
    requires again("TEMPLATE_DIR") == InitilizeConstants(getenv).templateDir
    ensures InitilizeConstants(again) == InitilizeConstants(getenv)
  {
  }
}
