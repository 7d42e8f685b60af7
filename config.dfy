/** The configuration values the core reads: the fixed category list and a few defaults. */
module Config {
  import opened Wrappers

  /** The ten allowed categories, in their configured order. */
  const Categories: seq<string> :=
    ["编程", "AI", "VPN", "在线工具", "娱乐", "电子商务", "供应厂商", "社交", "资讯", "专业设计"]

  /** The category an out-of-list answer is replaced by. */
  const DefaultCategory: string := "在线工具"

  /** Default of the network section's concurrency limit. */
  const DefaultMaxConcurrency: int := 100

  /** Default name of the exported bookmark file. */
  const DefaultOutputFilename: string := "sorted_bookmarks.html"

  /**
   * `max_concurrency or config.network.max_concurrency`: an absent or zero
   * argument falls back to the configured default; any other value is kept.
   */
  function ResolveConcurrency(requested: Option<int>): (n: int)
    ensures requested.None? || requested == Some(0) ==> n == DefaultMaxConcurrency
    ensures requested.Some? && requested.value != 0 ==> n == requested.value
  {
    if requested.None? || requested.value == 0 then DefaultMaxConcurrency else requested.value
  }
}
