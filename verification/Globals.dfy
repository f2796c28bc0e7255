/** The key of the values that a chart shares with all its dependencies. */
module Globals {
  const GLOBAL := "global"
}
