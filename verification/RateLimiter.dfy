/** The fixed-window rate limiter and its background cleanup. */
module RateLimiter {
  import opened Basics

  datatype Rule = Rule(verb: string, path: string, limit: int, window: Time)

  datatype Visitor = Visitor(count: int, windowStart: Time)

  datatype Config = Config(fallback: Rule, rules: seq<Rule>)

  datatype Request = Request(ip: string, user: string, verb: string, path: string, now: Time)

  datatype Answer = Answer(allowed: bool, remaining: int, limit: int)

  predicate MatchPath(pattern: string, path: string) {
    || pattern == path
    || (|pattern| > 0 && pattern[|pattern| - 1] == '*'
        && |path| >= |pattern| - 1 && path[..|pattern| - 1] == pattern[..|pattern| - 1])
  }

  /** A final star stands for any rest of the path; any other pattern matches only itself. */
  lemma StarMatchesPrefix(pattern: string, path: string)
    ensures MatchPath(pattern + "*", path) <==> pattern <= path
    ensures pattern == "" || pattern[|pattern| - 1] != '*' ==> (MatchPath(pattern, path) <==> pattern == path)
  {
    assert (pattern + "*")[..|pattern|] == pattern;
  }

  predicate Matches(r: Rule, verb: string, path: string) {
    r.verb == verb && MatchPath(r.path, path)
  }

  /** The first rule that matches, or the fallback. */
  function RuleFor(fallback: Rule, rules: seq<Rule>, verb: string, path: string): Rule {
    if rules == [] then fallback
    else if Matches(rules[0], verb, path) then rules[0]
    else RuleFor(fallback, rules[1..], verb, path)
  }

  function RuleOf(cfg: Config, r: Request): Rule {
    RuleFor(cfg.fallback, cfg.rules, r.verb, r.path)
  }

  function Key(ip: string, user: string): string {
    if user != "" then "user:" + user else "ip:" + ip
  }

  /** Two requests share a counter exactly when they come from one user, or anonymously from one address. */
  lemma KeyIdentifiesClient(ip: string, user: string, ip': string, user': string)
    ensures Key(ip, user) == Key(ip', user') <==> user == user' && (user == "" ==> ip == ip')
  {
    assert ("user:" + user)[5..] == user && ("user:" + user')[5..] == user';
    assert ("ip:" + ip)[3..] == ip && ("ip:" + ip')[3..] == ip';
    assert ("user:" + user)[0] == 'u' && ("user:" + user')[0] == 'u';
    assert ("ip:" + ip)[0] == 'i' && ("ip:" + ip')[0] == 'i';
  }

  /** The request opens a new window for its key. */
  predicate Opens(cfg: Config, visitors: map<string, Visitor>, r: Request) {
    var key := Key(r.ip, r.user);
    key !in visitors || r.now - visitors[key].windowStart >= RuleOf(cfg, r).window
  }

  function Decide(cfg: Config, visitors: map<string, Visitor>, r: Request): (map<string, Visitor>, Answer) {
    var key, rule := Key(r.ip, r.user), RuleOf(cfg, r);
    if Opens(cfg, visitors, r) then
      (visitors[key := Visitor(1, r.now)], Answer(true, rule.limit - 1, rule.limit))
    else
      var v := visitors[key].(count := visitors[key].count + 1);
      (visitors[key := v],
       Answer(v.count <= rule.limit, if rule.limit < v.count then 0 else rule.limit - v.count, rule.limit))
  }

  function Cleaned(cfg: Config, visitors: map<string, Visitor>, now: Time): map<string, Visitor> {
    map k | k in visitors && now - visitors[k].windowStart <= cfg.fallback.window :: visitors[k]
  }

  class RateLimiter {
    const fallback: Rule
    var rules: seq<Rule>
    var visitors: map<string, Visitor>

    function Cfg(): Config reads this {
      Config(fallback, rules)
    }

    constructor (limit: int, window: Time)
      ensures Cfg() == Config(Rule("", "", limit, window), []) && visitors == map[]
    {
      fallback, rules, visitors := Rule("", "", limit, window), [], map[];
    }

    method AddRule(verb: string, path: string, limit: int, window: Time)
      modifies this`rules
      ensures rules == old(rules) + [Rule(verb, path, limit, window)]
    {
      rules := rules + [Rule(verb, path, limit, window)];
    }

    method GetRule(verb: string, path: string) returns (r: Rule)
      ensures r == RuleFor(fallback, rules, verb, path)
      ensures (r == fallback && forall k :: 0 <= k < |rules| ==> !Matches(rules[k], verb, path))
           || exists k :: 0 <= k < |rules| && r == rules[k] && Matches(rules[k], verb, path)
                          && forall j :: 0 <= j < k ==> !Matches(rules[j], verb, path)
    {
      for i := 0 to |rules|
        invariant forall k :: 0 <= k < i ==> !Matches(rules[k], verb, path)
        invariant RuleFor(fallback, rules, verb, path) == RuleFor(fallback, rules[i..], verb, path)
      {
        if Matches(rules[i], verb, path) {
          return rules[i];
        }
      }
      return fallback;
    }

    method Allow(r: Request) returns (a: Answer)
      modifies this`visitors
      ensures (visitors, a) == Decide(Cfg(), old(visitors), r)
    {
      var key := Key(r.ip, r.user);
      var rule := GetRule(r.verb, r.path);
      if key !in visitors || r.now - visitors[key].windowStart >= rule.window {
        visitors := visitors[key := Visitor(1, r.now)];
        return Answer(true, rule.limit - 1, rule.limit);
      }
      var v := visitors[key].(count := visitors[key].count + 1);
      visitors := visitors[key := v];
      var remaining := rule.limit - v.count;
      if remaining < 0 {
        remaining := 0;
      }
      return Answer(v.count <= rule.limit, remaining, rule.limit);
    }

    /** One tick of the cleanup, which ranges over the visitors in no particular order. */
    method Cleanup(now: Time)
      modifies this`visitors
      ensures visitors == Cleaned(Cfg(), old(visitors), now)
    {
      var todo := visitors.Keys;
      while todo != {}
        invariant todo <= visitors.Keys <= old(visitors).Keys
        invariant forall k :: k in visitors ==> visitors[k] == old(visitors)[k]
        invariant forall k :: k in old(visitors) && k !in todo ==>
                    (k in visitors <==> now - old(visitors)[k].windowStart <= fallback.window)
        decreases |todo|
      {
        var k :| k in todo;
        todo := todo - {k};
        if now - visitors[k].windowStart > fallback.window {
          visitors := visitors - {k};
        }
      }
    }
  }

  // ---------------------------------------------------------------- whole runs

  datatype Event = Ask(request: Request) | Cleanup(at: Time)

  function When(e: Event): Time {
    match e
    case Ask(r) => r.now
    case Cleanup(at) => at
  }

  function Step(cfg: Config, visitors: map<string, Visitor>, e: Event): map<string, Visitor> {
    match e
    case Ask(r) => Decide(cfg, visitors, r).0
    case Cleanup(at) => Cleaned(cfg, visitors, at)
  }

  function Run(cfg: Config, events: seq<Event>): map<string, Visitor> {
    if events == [] then map[] else Step(cfg, Run(cfg, events[..|events| - 1]), events[|events| - 1])
  }

  /** Every answer given, in order. */
  function Answers(cfg: Config, events: seq<Event>): seq<Answer> {
    if events == [] then []
    else
      var init, e := events[..|events| - 1], events[|events| - 1];
      Answers(cfg, init) + if e.Ask? then [Decide(cfg, Run(cfg, init), e.request).1] else []
  }

  /** The clock never goes back along the run, which ends by `now`. */
  predicate Timely(events: seq<Event>, now: Time) {
    events == [] ||
    (When(events[|events| - 1]) <= now && Timely(events[..|events| - 1], When(events[|events| - 1])))
  }

  lemma {:induction false} TimelyLater(events: seq<Event>, now: Time, later: Time)
    requires Timely(events, now) && now <= later
    ensures Timely(events, later)
  {
  }

  // ---------------------------------------------------------------- cleanups go unnoticed, or not

  function WithoutCleanups(events: seq<Event>): seq<Event> {
    if events == [] then []
    else
      var rest := WithoutCleanups(events[..|events| - 1]);
      if events[|events| - 1].Cleanup? then rest else rest + [events[|events| - 1]]
  }

  /** A cleanup only forgets visitors whose window has run out under this rule as well. */
  predicate Outlasted(cfg: Config, rule: Rule) {
    rule.window <= 0 || rule.window <= cfg.fallback.window + 1
  }

  /** No rule that a request can meet has a window beyond the fallback's. */
  ghost predicate Harmless(cfg: Config) {
    forall verb, path :: Outlasted(cfg, RuleFor(cfg.fallback, cfg.rules, verb, path))
  }

  /** `v` is `w` less visitors whose windows are over. */
  ghost predicate Forgets(cfg: Config, v: map<string, Visitor>, w: map<string, Visitor>, now: Time) {
    && (forall k :: k in v ==> k in w && v[k] == w[k])
    && (forall k :: k in w ==> w[k].windowStart <= now)
    && (forall k :: k in w && k !in v ==> now - w[k].windowStart > cfg.fallback.window)
  }

  lemma AskForgets(cfg: Config, v: map<string, Visitor>, w: map<string, Visitor>, before: Time, r: Request)
    requires Harmless(cfg) && Forgets(cfg, v, w, before) && before <= r.now
    ensures Decide(cfg, v, r).1 == Decide(cfg, w, r).1
    ensures Forgets(cfg, Decide(cfg, v, r).0, Decide(cfg, w, r).0, r.now)
  {
    assert Outlasted(cfg, RuleFor(cfg.fallback, cfg.rules, r.verb, r.path));
    var key := Key(r.ip, r.user);
    if key in w && key !in v {
      assert Opens(cfg, w, r);
    }
  }

  lemma {:induction false} RunForgets(cfg: Config, events: seq<Event>, now: Time)
    requires Harmless(cfg) && Timely(events, now)
    ensures Forgets(cfg, Run(cfg, events), Run(cfg, WithoutCleanups(events)), now)
    ensures Answers(cfg, events) == Answers(cfg, WithoutCleanups(events))
    ensures Timely(WithoutCleanups(events), now)
  {
    if events != [] {
      var init, e := events[..|events| - 1], events[|events| - 1];
      RunForgets(cfg, init, When(e));
      var rest := WithoutCleanups(init);
      if e.Ask? {
        assert (rest + [e])[..|rest|] == rest;
        AskForgets(cfg, Run(cfg, init), Run(cfg, rest), When(e), e.request);
      } else {
        TimelyLater(rest, When(e), now);
      }
    }
  }

  /** If no reachable rule's window exceeds the fallback's, cleanups at any moments change no answer. */
  lemma CleanupIsUnobservable(cfg: Config, events: seq<Event>, now: Time)
    requires Harmless(cfg) && Timely(events, now)
    ensures Answers(cfg, events) == Answers(cfg, WithoutCleanups(events))
  {
    RunForgets(cfg, events, now);
  }

  /** One event more. */
  lemma Snoc(cfg: Config, events: seq<Event>, e: Event)
    ensures Run(cfg, events + [e]) == Step(cfg, Run(cfg, events), e)
    ensures Answers(cfg, events + [e]) ==
            Answers(cfg, events) + if e.Ask? then [Decide(cfg, Run(cfg, events), e.request).1] else []
    ensures WithoutCleanups(events + [e]) ==
            if e.Cleanup? then WithoutCleanups(events) else WithoutCleanups(events) + [e]
    ensures Timely(events, When(e)) ==> Timely(events + [e], When(e))
  {
    assert (events + [e])[..|events|] == events;
  }

  /** If cleaning up changes the answer to the next request, it shows. */
  lemma CleanupShows(cfg: Config, start: seq<Event>, r: Request) returns (events: seq<Event>)
    requires Timely(start, r.now) && WithoutCleanups(start) == start
    requires Decide(cfg, Cleaned(cfg, Run(cfg, start), r.now), r).1 != Decide(cfg, Run(cfg, start), r).1
    ensures Timely(events, r.now)
    ensures Answers(cfg, events) != Answers(cfg, WithoutCleanups(events))
  {
    var cleaned := start + [Cleanup(r.now)];
    events := cleaned + [Ask(r)];
    Snoc(cfg, start, Cleanup(r.now));
    Snoc(cfg, cleaned, Ask(r));
    Snoc(cfg, start, Ask(r));
    LastDiffers(Answers(cfg, start), Decide(cfg, Run(cfg, cleaned), r).1, Decide(cfg, Run(cfg, start), r).1);
  }

  /** A client's second request, late in a long window, is answered differently if the first is forgotten. */
  lemma ForgettingShows(cfg: Config, first: Request, second: Request)
    requires second.ip == first.ip && second.user == first.user
    requires cfg.fallback.window < second.now - first.now < RuleOf(cfg, second).window
    ensures var v := Decide(cfg, map[], first).0;
            Decide(cfg, Cleaned(cfg, v, second.now), second).1 != Decide(cfg, v, second).1
  {
    assert Cleaned(cfg, Decide(cfg, map[], first).0, second.now) == map[];
  }

  lemma LastDiffers(s: seq<Answer>, x: Answer, y: Answer)
    requires x != y
    ensures s + [x] != s + [y]
  {
    assert (s + [x])[|s|] == x && (s + [y])[|s|] == y;
  }

  /** Otherwise there is a run, of one client, in which a cleanup does change an answer. */
  lemma CleanupIsObservable(cfg: Config, verb: string, path: string) returns (events: seq<Event>, now: Time)
    requires !Outlasted(cfg, RuleFor(cfg.fallback, cfg.rules, verb, path))
    ensures Timely(events, now)
    ensures Answers(cfg, events) != Answers(cfg, WithoutCleanups(events))
  {
    now := if cfg.fallback.window < 0 then 0 else cfg.fallback.window + 1;
    var first, second := Request("", "", verb, path, 0), Request("", "", verb, path, now);
    Single(cfg, Ask(first), now);
    ForgettingShows(cfg, first, second);
    events := CleanupShows(cfg, [Ask(first)], second);
  }

  lemma Single(cfg: Config, e: Event, now: Time)
    requires e.Ask? && When(e) <= now
    ensures Run(cfg, [e]) == Decide(cfg, map[], e.request).0
    ensures Timely([e], now) && WithoutCleanups([e]) == [e]
  {
    assert [e][..0] == [];
  }

  // ---------------------------------------------------------------- how much gets through

  /** Requests of a client let through between `a` and `b`. */
  function Allowed(cfg: Config, events: seq<Event>, key: string, a: Time, b: Time): nat {
    if events == [] then 0
    else
      var init, e := events[..|events| - 1], events[|events| - 1];
      Allowed(cfg, init, key, a, b)
      + if e.Ask? && Key(e.request.ip, e.request.user) == key && a <= When(e) <= b
           && Decide(cfg, Run(cfg, init), e.request).1.allowed then 1 else 0
  }

  /** Every rule has window `w`, and a limit between 1 and `limit`. */
  ghost predicate Uniform(cfg: Config, w: Time, limit: int) {
    && w > 0 && cfg.fallback.window == w
    && forall verb, path ::
         var r := RuleFor(cfg.fallback, cfg.rules, verb, path); r.window == w && 1 <= r.limit <= limit
  }

  function Least(x: int, y: int): int {
    if x < y then x else y
  }

  lemma {:induction false} TimesMonotone(m: nat, n: nat, r: int)
    requires m <= n && r >= 0
    ensures Times(m, r) <= Times(n, r)
  {
    if m < n {
      TimesMonotone(m, n - 1, r);
    }
  }

  /** What windows opened before `start` can have let through since `a`. */
  ghost function Quota(start: Time, a: Time, w: Time, limit: int): int
    requires w > 0
  {
    if start < a then 0 else Times((start - a) / w, limit) + limit
  }

  /** A window later, the quota has grown by one window's limit. */
  lemma NextWindow(x: Time, y: Time, a: Time, w: Time, limit: int)
    requires w > 0 && limit >= 0 && x + w <= y && a <= y
    ensures Quota(x, a, w, limit) + limit <= Quota(y, a, w, limit)
  {
    if x < a {
      TimesMonotone(0, (y - a) / w, limit);
    } else {
      NotPastQuotient((x - a) / w + 1, w, y - a, (y - a) / w);
      TimesMonotone((x - a) / w + 1, (y - a) / w, limit);
    }
  }

  /** What the client's current window lets `n` be. */
  ghost predicate Budget(v: map<string, Visitor>, key: string, n: int, a: Time, w: Time, limit: int, now: Time)
    requires w > 0
  {
    && (now < a ==> n == 0)
    && (key !in v ==> n == 0)
    && (key in v ==>
          && v[key].count >= 1 && v[key].windowStart <= now
          && n <= Quota(v[key].windowStart, a, w, limit) + Least(v[key].count, limit))
  }

  lemma OpenKeepsBudget(v: map<string, Visitor>, key: string, n: nat, a: Time, w: Time, limit: int, before: Time,
                        now: Time)
    requires w > 0 && limit >= 1 && Budget(v, key, n, a, w, limit, before) && before <= now
    requires key in v ==> v[key].windowStart + w <= now
    ensures Budget(v[key := Visitor(1, now)], key, n + (if a <= now then 1 else 0), a, w, limit, now)
  {
    if a <= now {
      if key in v {
        NextWindow(v[key].windowStart, now, a, w, limit);
      } else {
        TimesMonotone(0, (now - a) / w, limit);
      }
    }
  }

  lemma AskKeepsBudget(cfg: Config, v: map<string, Visitor>, r: Request, key: string, n: nat, a: Time, w: Time,
                       limit: int, before: Time)
    requires Uniform(cfg, w, limit) && Budget(v, key, n, a, w, limit, before) && before <= r.now
    ensures var (after, answer) := Decide(cfg, v, r);
            var more := if Key(r.ip, r.user) == key && a <= r.now && answer.allowed then 1 else 0;
            Budget(after, key, n + more, a, w, limit, r.now)
  {
    var rule := RuleFor(cfg.fallback, cfg.rules, r.verb, r.path);
    assert rule.window == w && 1 <= rule.limit <= limit;
    if Key(r.ip, r.user) == key && Opens(cfg, v, r) {
      OpenKeepsBudget(v, key, n, a, w, limit, before, r.now);
    }
  }

  lemma {:induction false} RunKeepsBudget(cfg: Config, events: seq<Event>, key: string, a: Time, b: Time, w: Time,
                                          limit: int, now: Time)
    requires Uniform(cfg, w, limit) && Timely(events, now) && now <= b
    requires forall k :: 0 <= k < |events| ==> events[k].Ask?
    ensures Budget(Run(cfg, events), key, Allowed(cfg, events, key, a, b), a, w, limit, now)
  {
    if events != [] {
      var init, e := events[..|events| - 1], events[|events| - 1];
      RunKeepsBudget(cfg, init, key, a, b, w, limit, When(e));
      AskKeepsBudget(cfg, Run(cfg, init), e.request, key, Allowed(cfg, init, key, a, b), a, w, limit, When(e));
    }
  }

  lemma {:induction false} AllowedIgnoresCleanups(cfg: Config, events: seq<Event>, now: Time, key: string, a: Time,
                                                  b: Time)
    requires Harmless(cfg) && Timely(events, now)
    ensures Allowed(cfg, events, key, a, b) == Allowed(cfg, WithoutCleanups(events), key, a, b)
  {
    if events != [] {
      var init, e := events[..|events| - 1], events[|events| - 1];
      AllowedIgnoresCleanups(cfg, init, When(e), key, a, b);
      var rest := WithoutCleanups(init);
      if e.Ask? {
        assert (rest + [e])[..|rest|] == rest;
        RunForgets(cfg, init, When(e));
        AskForgets(cfg, Run(cfg, init), Run(cfg, rest), When(e), e.request);
      }
    }
  }

  lemma {:induction false} OnlyAsksRemain(events: seq<Event>)
    ensures forall k :: 0 <= k < |WithoutCleanups(events)| ==> WithoutCleanups(events)[k].Ask?
  {
    if events != [] {
      OnlyAsksRemain(events[..|events| - 1]);
    }
  }

  lemma BudgetBound(v: map<string, Visitor>, key: string, n: int, a: Time, b: Time, w: Time, limit: int)
    requires w > 0 && limit >= 1 && a <= b && Budget(v, key, n, a, w, limit, b)
    ensures n <= Times((b - a) / w + 2, limit)
  {
    TimesMonotone(0, (b - a) / w, limit);
    if key in v && v[key].windowStart >= a {
      NotPastQuotient((v[key].windowStart - a) / w, w, b - a, (b - a) / w);
      TimesMonotone((v[key].windowStart - a) / w, (b - a) / w, limit);
    }
  }

  /**
   With one window `w` for all rules, a client gets at most `limit * (T / w + 2)`
   requests through in any interval of length `T`, whatever other clients do and
   whenever cleanups run.
   */
  lemma {:induction false} ThroughputIsBounded(cfg: Config, events: seq<Event>, now: Time, key: string, a: Time,
                                               b: Time, w: Time, limit: int)
    requires Uniform(cfg, w, limit) && Timely(events, now) && a <= b
    ensures Allowed(cfg, events, key, a, b) <= ((b - a) / w + 2) * limit
    decreases |events|
  {
    if events != [] && When(events[|events| - 1]) > b {
      ThroughputIsBounded(cfg, events[..|events| - 1], When(events[|events| - 1]), key, a, b, w, limit);
    } else {
      assert 1 <= RuleFor(cfg.fallback, cfg.rules, "", "").limit <= limit;
      assert Timely(events, b);
      RunForgets(cfg, events, b);
      AllowedIgnoresCleanups(cfg, events, b, key, a, b);
      OnlyAsksRemain(events);
      var asks := WithoutCleanups(events);
      RunKeepsBudget(cfg, asks, key, a, b, w, limit, b);
      BudgetBound(Run(cfg, asks), key, Allowed(cfg, asks, key, a, b), a, b, w, limit);
      TimesIsProduct((b - a) / w + 2, limit);
    }
  }

  // ---------------------------------------------------------------- nobody is locked out

  /** The answer to the request at position `j`. */
  function AnswerAt(cfg: Config, events: seq<Event>, j: nat): Answer
    requires j < |events| && events[j].Ask?
  {
    Decide(cfg, Run(cfg, events[..j]), events[j].request).1
  }

  /** The request at `j` comes from this client, at this time, and was let through. */
  ghost predicate LetThrough(cfg: Config, events: seq<Event>, j: nat, key: string, at: Time) {
    && j < |events| && events[j].Ask? && events[j].request.now == at
    && Key(events[j].request.ip, events[j].request.user) == key
    && AnswerAt(cfg, events, j).allowed
  }

  /** A window is always opened by a request that was let through. */
  lemma {:induction false} WindowWasOpened(cfg: Config, events: seq<Event>, key: string) returns (j: nat)
    requires key in Run(cfg, events)
    ensures LetThrough(cfg, events, j, key, Run(cfg, events)[key].windowStart)
  {
    var n := |events| - 1;
    var init, e := events[..n], events[n];
    if e.Ask? && Key(e.request.ip, e.request.user) == key && Opens(cfg, Run(cfg, init), e.request) {
      j := n;
    } else {
      j := WindowWasOpened(cfg, init, key);
      assert init[..j] == events[..j];
    }
  }

  /** A request is refused only if the same client got one through less than a window before. */
  lemma {:induction false} RefusedOnlyAfterAllowed(cfg: Config, events: seq<Event>, r: Request) returns (j: nat)
    requires !Decide(cfg, Run(cfg, events), r).1.allowed
    ensures j < |events| && events[j].Ask? && r.now - events[j].request.now < RuleOf(cfg, r).window
    ensures LetThrough(cfg, events, j, Key(r.ip, r.user), events[j].request.now)
  {
    j := WindowWasOpened(cfg, events, Key(r.ip, r.user));
  }

  // ---------------------------------------------------------------- what "remaining" promises

  /** The visitors after a sequence of requests, of any clients. */
  function After(cfg: Config, visitors: map<string, Visitor>, requests: seq<Request>): map<string, Visitor> {
    if requests == [] then visitors
    else Decide(cfg, After(cfg, visitors, requests[..|requests| - 1]), requests[|requests| - 1]).0
  }

  /** How many of the requests are this client's. */
  function CountOf(requests: seq<Request>, key: string): nat {
    if requests == [] then 0
    else
      CountOf(requests[..|requests| - 1], key)
      + if Key(requests[|requests| - 1].ip, requests[|requests| - 1].user) == key then 1 else 0
  }

  /** The request, if it is this client's, falls under `rule` and into the window that began at `start`. */
  predicate Within(cfg: Config, r: Request, key: string, rule: Rule, start: Time) {
    Key(r.ip, r.user) == key ==> RuleOf(cfg, r) == rule && r.now - start < rule.window
  }

  lemma {:induction false} WindowCounts(cfg: Config, visitors: map<string, Visitor>, requests: seq<Request>,
                                        key: string, rule: Rule)
    requires key in visitors
    requires forall k :: 0 <= k < |requests| ==> Within(cfg, requests[k], key, rule, visitors[key].windowStart)
    ensures key in After(cfg, visitors, requests)
    ensures After(cfg, visitors, requests)[key]
         == Visitor(visitors[key].count + CountOf(requests, key), visitors[key].windowStart)
  {
    if requests != [] {
      WindowCounts(cfg, visitors, requests[..|requests| - 1], key, rule);
      assert Within(cfg, requests[|requests| - 1], key, rule, visitors[key].windowStart);
    }
  }

  /** What the limiter answers to the `n`-th request of a window. */
  function NthAnswer(n: nat, limit: int): Answer
    requires n > 0
  {
    if n == 1 then Answer(true, limit - 1, limit)
    else if n <= limit then Answer(true, limit - n, limit)
    else Answer(false, 0, limit)
  }

  /**
   The n-th request of a client in a window is answered by its number and the rule's
   limit alone, whatever other clients do in between: the first is let through, and
   after it exactly those within the limit.
   */
  lemma NthRequestOfWindow(cfg: Config, visitors: map<string, Visitor>, r: Request,
                           between: seq<Request>, later: Request)
    requires Opens(cfg, visitors, r) && Key(later.ip, later.user) == Key(r.ip, r.user)
    requires Within(cfg, later, Key(r.ip, r.user), RuleOf(cfg, r), r.now)
    requires forall k :: 0 <= k < |between| ==> Within(cfg, between[k], Key(r.ip, r.user), RuleOf(cfg, r), r.now)
    ensures var (after, answer) := Decide(cfg, visitors, r);
            && answer == NthAnswer(1, RuleOf(cfg, r).limit)
            && Decide(cfg, After(cfg, after, between), later).1
            == NthAnswer(CountOf(between, Key(r.ip, r.user)) + 2, RuleOf(cfg, r).limit)
  {
    WindowCounts(cfg, Decide(cfg, visitors, r).0, between, Key(r.ip, r.user), RuleOf(cfg, r));
  }

  /** What a request is told remains can be negative only if its rule's limit is not positive, and then is. */
  lemma RemainingIsNatIff(cfg: Config, r: Request)
    ensures (forall visitors :: Decide(cfg, visitors, r).1.remaining >= 0) <==> RuleOf(cfg, r).limit >= 1
    ensures forall visitors :: Decide(cfg, visitors, r).1.limit == RuleOf(cfg, r).limit
  {
    assert Decide(cfg, map[], r).1.remaining == RuleOf(cfg, r).limit - 1;
  }

  /**
   The number reported as remaining is exact: whatever follows, of this client's further
   requests under the same rule within the window, at any times and among any other
   clients', that many are let through and no more.
   */
  lemma RemainingIsExact(cfg: Config, visitors: map<string, Visitor>, r: Request,
                         between: seq<Request>, later: Request)
    requires Key(later.ip, later.user) == Key(r.ip, r.user)
    requires var (after, _) := Decide(cfg, visitors, r);
             var start := after[Key(r.ip, r.user)].windowStart;
             && Within(cfg, later, Key(r.ip, r.user), RuleOf(cfg, r), start)
             && forall k :: 0 <= k < |between| ==> Within(cfg, between[k], Key(r.ip, r.user), RuleOf(cfg, r), start)
    ensures var (after, answer) := Decide(cfg, visitors, r);
            Decide(cfg, After(cfg, after, between), later).1.allowed
            <==> CountOf(between, Key(r.ip, r.user)) < answer.remaining
  {
    WindowCounts(cfg, Decide(cfg, visitors, r).0, between, Key(r.ip, r.user), RuleOf(cfg, r));
  }
}
