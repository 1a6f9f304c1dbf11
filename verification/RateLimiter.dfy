/** The limiter's middleware for one key, in its own form: the script changes the key in place. */
module RateLimiter {
  import opened Options
  import opened SlidingWindow

  datatype Response =
    | Next(remaining: int, reset: int)
    | TooMany(retryAfter: int, reset: int)

  class Limiter {
    const config: Config
    var scores: seq<int>
    var deadline: Option<int>

    constructor (config: Config)
      ensures this.config == config && State() == Bucket([], None)
    {
      this.config := config;
      scores, deadline := [], None;
    }

    function State(): Bucket
      reads this
    {
      Bucket(scores, deadline)
    }

    /** SLIDING_WINDOW_SCRIPT, after Redis has dropped the key if it is due. */
    method RunScript(hit: Hit) returns (count: nat, allowed: bool)
      modifies this
      ensures (State(), count, allowed) == Serve(config, old(State()), hit)
    {
      if Expired(State(), hit.redis) {
        scores, deadline := [], None;
      }
      scores := Prune(scores, hit.app - config.window);
      count := |scores|;
      if count >= config.max {
        return count, false;
      }
      scores := scores + [hit.app];
      deadline := Some(hit.redis + config.window + GRACE);
      return count + 1, true;
    }

    method Handle(hit: Hit) returns (response: Response)
      modifies this
      ensures State() == Serve(config, old(State()), hit).0
      ensures response.Next? <==> Serve(config, old(State()), hit).2
      ensures response.TooMany? ==> response.retryAfter == RetryAfter(config, State(), hit.app)
      ensures response.TooMany? ==> response.reset == CeilSeconds(hit.app) + response.retryAfter
      ensures response.Next? ==> response.remaining == config.max - Serve(config, old(State()), hit).1 >= 0
      ensures response.Next? ==> response.reset == CeilSeconds(hit.app) + CeilSeconds(config.window)
    {
      var count, allowed := RunScript(hit);
      if !allowed {
        var seconds := RetryAfter(config, State(), hit.app);
        return TooMany(seconds, CeilSeconds(hit.app) + seconds);
      }
      var remaining := if config.max - count > 0 then config.max - count else 0;
      response := Next(remaining, CeilSeconds(hit.app) + CeilSeconds(config.window));
    }
  }
}
