/**
  Identity and egress choice for one attempt: a user-agent string drawn from a
  fixed pool (`StealthConfig.get_random_user_agent`) and a proxy drawn from the
  configured pool, or none when the pool is empty
  (`ProxyConfig.get_random_proxy`). The random draw is modelled as an
  arbitrary member of the pool.
*/
module Identity {
  import opened Wrappers

  /** `StealthConfig.USER_AGENTS` */
  const StealthUserAgents: seq<string> := [
    "Mozilla/5.0 (Windows NT 10.0; Win64; x64) AppleWebKit/537.36 (KHTML, like Gecko) Chrome/123.0.0.0 Safari/537.36",
    "Mozilla/5.0 (Macintosh; Intel Mac OS X 10_15_7) AppleWebKit/537.36 (KHTML, like Gecko) Chrome/123.0.0.0 Safari/537.36",
    "Mozilla/5.0 (X11; Linux x86_64) AppleWebKit/537.36 (KHTML, like Gecko) Chrome/123.0.0.0 Safari/537.36",
    "Mozilla/5.0 (Windows NT 10.0; Win64; x64; rv:122.0) Gecko/20100101 Firefox/122.0",
    "Mozilla/5.0 (Macintosh; Intel Mac OS X 10_15_7) AppleWebKit/605.1.15 (KHTML, like Gecko) Version/17.1 Safari/605.1.15"
  ]

  /** `StealthConfig.get_random_user_agent()`: some user agent of the pool. */
  method RandomUserAgent() returns (ua: string)
    ensures ua in StealthUserAgents
  {
    assert StealthUserAgents[0] in StealthUserAgents;
    ua :| ua in StealthUserAgents;
  }

  /**
    `ProxyConfig.get_random_proxy()` over the configured `pool`: no proxy
    exactly when the pool is empty, otherwise some member of it.
  */
  method RandomProxy(pool: seq<string>) returns (proxy: Option<string>)
    ensures proxy.None? <==> pool == []
    ensures proxy.Some? ==> proxy.value in pool
  {
    if pool == [] {
      proxy := None;
    } else {
      assert pool[0] in pool;
      var p :| p in pool;
      proxy := Some(p);
    }
  }
}
