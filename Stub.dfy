/** The plugin-wide constants the plugin's classes share. */
module Stub {

  /** `GLOBAL_NS`: the prefix of the plugin's option names and globals. */
  const GlobalNs: string := "comment_mail"
}
