/** The strategies the adaptive balancer switches between (strategy/adaptive.rs:19-53). */
module Strategies {
  import opened Core

  datatype Strategy = RoundRobin | Random | FNVHash | Consistent | FewestConnections | FastestServer {
    /** Milliseconds between periodic selector rebuilds; None if the selector is only built on changes. */
    function RebuildFrequency(): Option<nat> {
      if FewestConnections? || FastestServer? then Some(200) else None
    }
  }
}
