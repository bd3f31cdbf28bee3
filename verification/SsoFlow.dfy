/** The sign-on flow over sessions: who gets an access token, and that nothing stored is ever lost. */
module SsoFlow {
  import opened PythonInt
  import opened SsoSession
  import opened Wrappers

  /** A value on its way to the store, or in it. */
  datatype Entry = Entry(cookie: string, group: string, key: string, value: string)

  /** A redirect to sign-on: the cookie it gave out, the peer group it was given to, the key in its
      state, and the URL to come back to. */
  datatype Flow = Flow(cookie: string, group: string, key: string, url: string)

  /** A callback that was granted a token: what it presented, the cookie the token is kept under, and the
      token. */
  datatype Grant = Grant(cookie: string, group: string, key: string, url: string, newCookie: string, token: string)

  /** `peers` are the groups of addresses, and the single addresses, that requests may come from. */
  datatype Site = Site(peers: set<string>, store: map<string, string>, writes: seq<Entry>, flows: set<Flow>,
                       grants: set<Grant>)

  /** `Flush` is one write reaching the store. Between reading the store and writing to it, a request
      waits, and any number of other requests may come in. */
  datatype Step =
    | Visit(group: Option<string>, url: string, newCookie: string, newKey: string)
    | Callback(cookie: string, group: Option<string>, query: string, newCookie: string, newKey: string, token: string)
    | Flush(i: nat)

  /** No cookie, or no peer group, no session. */
  function Get(store: map<string, string>, cookie: string, group: Option<string>, key: string): Option<string> {
    if cookie == "" || group.None? then None
    else
      var k := RedisKey(cookie, group.value, key);
      if k in store then Some(store[k]) else None
  }

  /** A cookie that was never given out. */
  ghost predicate Fresh(site: Site, cookie: string) {
    && (forall f | f in site.flows :: f.cookie != cookie)
    && (forall g | g in site.grants :: g.newCookie != cookie)
  }

  predicate GroupOk(site: Site, group: Option<string>) {
    group.Some? ==> group.value in site.peers
  }

  ghost predicate Enabled(site: Site, step: Step) {
    match step
    case Visit(group, _, newCookie, newKey) => GroupOk(site, group) && Fresh(site, newCookie) && Plain(newKey)
    case Callback(_, group, _, newCookie, newKey, _) => GroupOk(site, group) && Fresh(site, newCookie) && Plain(newKey)
    case Flush(i) => i < |site.writes|
  }

  /** The store takes ASCII values only: a redirect for another URL fails, and stores nothing. */
  function Redirected(site: Site, group: Option<string>, url: string, newCookie: string, newKey: string): Site {
    if group.None? || !Ascii(url) then site
    else site.(writes := site.writes + [Entry(newCookie, group.value, newKey, url)],
               flows := site.flows + {Flow(newCookie, group.value, newKey, url)})
  }

  function Granted(site: Site, cookie: string, group: string, key: string, url: string, newCookie: string,
                   token: string): Site
  {
    site.(writes := site.writes + [Entry(newCookie, group, TOKEN_KEY, token)],
          grants := site.grants + {Grant(cookie, group, key, url, newCookie, token)})
  }

  function Flushed(site: Site, i: nat): Site
    requires i < |site.writes|
  {
    var w := site.writes[i];
    site.(store := site.store[RedisKey(w.cookie, w.group, w.key) := w.value],
          writes := site.writes[..i] + site.writes[i + 1..])
  }

  function After(site: Site, step: Step): Site
    requires step.Flush? ==> step.i < |site.writes|
  {
    match step
    case Visit(group, url, newCookie, newKey) => Redirected(site, group, url, newCookie, newKey)
    case Callback(cookie, group, query, newCookie, newKey, token) =>
      var (key, url) := Decoded(query);
      if Get(site.store, cookie, group, key) != Some(url) then Redirected(site, group, url, newCookie, newKey)
      else Granted(site, cookie, group.value, key, url, newCookie, token)
    case Flush(i) => Flushed(site, i)
  }

  // ---------------------------------------------------------------------------------------------
  // The code
  // ---------------------------------------------------------------------------------------------

  class Redis {
    var data: map<string, string>

    constructor ()
      ensures data == map[]
    {
      data := map[];
    }
  }

  function Stored(store: map<string, string>, cookie: string, group: string, values: seq<(string, string)>)
    : map<string, string>
    decreases |values|
  {
    if values == [] then store
    else Stored(store[RedisKey(cookie, group, values[0].0) := values[0].1], cookie, group, values[1..])
  }

  /** The session of one request. */
  class Session {
    const redis: Redis
    const group: Option<string>
    var cookie: string
    var toSet: seq<(string, string)>

    constructor (redis: Redis, cookie: string, group: Option<string>)
      ensures this.redis == redis && this.cookie == cookie && this.group == group && toSet == []
    {
      this.redis, this.cookie, this.group, toSet := redis, cookie, group, [];
    }

    method GetValue(key: string) returns (value: Option<string>)
      ensures value == Get(redis.data, cookie, group, key)
      ensures value.Some? <==> cookie != "" && group.Some? && RedisKey(cookie, group.value, key) in redis.data
      ensures value.Some? ==> value.value == redis.data[RedisKey(cookie, group.value, key)]
    {
      if cookie == "" || group.None? {
        return None;
      }
      var k := RedisKey(cookie, group.value, key);
      return if k in redis.data then Some(redis.data[k]) else None;
    }

    method SetValue(key: string, value: string)
      modifies this`toSet
      ensures toSet == old(toSet) + [(key, value)]
    {
      toSet := toSet + [(key, value)];
    }

    method WithNewCookie(newCookie: string)
      modifies this`cookie, redis
      ensures cookie == newCookie
      ensures redis.data == if group.None? then old(redis.data) else Stored(old(redis.data), cookie, group.value, toSet)
    {
      cookie := newCookie;
      if group.Some? {
        var i := 0;
        while i < |toSet|
          invariant i <= |toSet| && cookie == newCookie
          invariant Stored(redis.data, cookie, group.value, toSet[i..])
                    == Stored(old(redis.data), cookie, group.value, toSet)
        {
          assert toSet[i..][1..] == toSet[i + 1..];
          redis.data := redis.data[RedisKey(cookie, group.value, toSet[i].0) := toSet[i].1];
          i := i + 1;
        }
      }
    }
  }

  method RedirectionToSso(session: Session, url: string, newCookie: string, newKey: string) returns (failed: bool)
    requires session.toSet == []
    modifies session, session.redis
    ensures var site := Site({}, old(session.redis.data), [], {}, {});
            var after := Redirected(site, session.group, url, newCookie, newKey);
            session.redis.data == if after.writes == [] then site.store else Flushed(after, 0).store
    ensures failed <==> session.group.Some? && !Ascii(url)
    ensures session.cookie == if failed then old(session.cookie) else newCookie
    ensures session.redis.data
            == if failed || session.group.None? then old(session.redis.data)
               else old(session.redis.data)[RedisKey(newCookie, session.group.value, newKey) := url]
  {
    if session.group.Some? && !Ascii(url) {
      return true;
    }
    session.SetValue(newKey, url);
    session.WithNewCookie(newCookie);
    return false;
  }

  /** A request to the callback URL, with nothing in between. */
  method HandleCallback(session: Session, query: string, newCookie: string, newKey: string, token: string)
    returns (failed: bool)
    requires session.toSet == []
    modifies session, session.redis
    ensures var site := Site({}, old(session.redis.data), [], {}, {});
            var after := After(site, Callback(old(session.cookie), session.group, query, newCookie, newKey, token));
            session.redis.data == if after.writes == [] then site.store else Flushed(after, 0).store
    ensures var (key, url) := Decoded(query);
            var granted := Get(old(session.redis.data), old(session.cookie), session.group, key) == Some(url);
            && (failed <==> !granted && session.group.Some? && !Ascii(url))
            && session.cookie == (if failed then old(session.cookie) else newCookie)
            && session.redis.data
               == if failed || session.group.None? then old(session.redis.data)
                  else old(session.redis.data)[RedisKey(newCookie, session.group.value,
                                                        if granted then TOKEN_KEY else newKey)
                                               := if granted then token else url]
  {
    var (key, url) := Decoded(query);
    var stored := session.GetValue(key);
    if stored != Some(url) {
      failed := RedirectionToSso(session, url, newCookie, newKey);
    } else {
      session.SetValue(TOKEN_KEY, token);
      session.WithNewCookie(newCookie);
      failed := false;
    }
  }

  // ---------------------------------------------------------------------------------------------
  // Invariants
  // ---------------------------------------------------------------------------------------------

  /** An entry was made by a redirect, or holds a token that was granted. */
  ghost predicate Accounted(site: Site, cookie: string, group: string, key: string, value: string) {
    if key == TOKEN_KEY then
      exists g | g in site.grants :: g.newCookie == cookie && g.group == group && g.token == value
    else Flow(cookie, group, key, value) in site.flows
  }

  ghost predicate WritesAccounted(site: Site) {
    forall w | w in site.writes ::
      w.group in site.peers && SessionKey(w.key) && Accounted(site, w.cookie, w.group, w.key, w.value)
  }

  ghost predicate StoreAccounted(site: Site) {
    forall c, g, k | g in site.peers && SessionKey(k) && RedisKey(c, g, k) in site.store ::
      Accounted(site, c, g, k, site.store[RedisKey(c, g, k)])
  }

  /** Whoever was granted a token had been sent to sign-on with the cookie they presented, from the same
      peer group, on the way to the same URL, and their state named the key of that redirect. */
  ghost predicate GrantsAccounted(site: Site) {
    forall g | g in site.grants :: Flow(g.cookie, g.group, g.key, g.url) in site.flows
  }

  /** Each cookie holds one value, so that no write meets another. */
  ghost predicate OneEach(site: Site) {
    && (forall i, j | 0 <= i < j < |site.writes| :: site.writes[i].cookie != site.writes[j].cookie)
    && (forall w, c, g, k | w in site.writes && g in site.peers && SessionKey(k) && RedisKey(c, g, k) in site.store ::
          w.cookie != c)
  }

  ghost predicate Sound(site: Site) {
    Apart(site.peers) && WritesAccounted(site) && StoreAccounted(site) && GrantsAccounted(site) && OneEach(site)
  }

  /** A cookie that was never given out has nothing in the store, nor on the way to it. */
  lemma FreshIsUnused(site: Site, cookie: string)
    requires WritesAccounted(site) && StoreAccounted(site) && Fresh(site, cookie)
    ensures forall w | w in site.writes :: w.cookie != cookie
    ensures forall g, k | g in site.peers && SessionKey(k) :: RedisKey(cookie, g, k) !in site.store
  {
    forall w | w in site.writes ensures w.cookie != cookie {
      assert Accounted(site, w.cookie, w.group, w.key, w.value);
    }
    assert forall g, k | g in site.peers && SessionKey(k) && RedisKey(cookie, g, k) in site.store ::
      Accounted(site, cookie, g, k, site.store[RedisKey(cookie, g, k)]);
  }

  /** One more write under a fresh cookie. */
  lemma WriteAdded(site: Site, site': Site, w: Entry)
    requires Sound(site) && Fresh(site, w.cookie)
    requires site'.peers == site.peers && site'.store == site.store && site'.writes == site.writes + [w]
    requires site.flows <= site'.flows && site.grants <= site'.grants
    requires w.group in site.peers && SessionKey(w.key) && Accounted(site', w.cookie, w.group, w.key, w.value)
    requires GrantsAccounted(site')
    ensures Sound(site')
  {
    hide RedisKey;
    FreshIsUnused(site, w.cookie);
    forall c, g, k, v | Accounted(site, c, g, k, v) ensures Accounted(site', c, g, k, v) {
    }
  }

  /** Whatever a callback finds in its session was put there by a redirect that gave out that cookie. */
  lemma FoundIsFlow(site: Site, cookie: string, group: Option<string>, key: string, url: string)
    requires StoreAccounted(site) && GroupOk(site, group) && Plain(key) && Get(site.store, cookie, group, key) == Some(url)
    ensures group.Some? && Flow(cookie, group.value, key, url) in site.flows
  {
    hide RedisKey;
    assert TOKEN_KEY[5] == '_';
    assert Accounted(site, cookie, group.value, key, site.store[RedisKey(cookie, group.value, key)]);
  }

  lemma RedirectSound(site: Site, group: Option<string>, url: string, newCookie: string, newKey: string)
    requires Sound(site) && GroupOk(site, group) && Fresh(site, newCookie) && Plain(newKey)
    ensures Sound(Redirected(site, group, url, newCookie, newKey))
  {
    if group.Some? && Ascii(url) {
      assert TOKEN_KEY[5] == '_';
      WriteAdded(site, Redirected(site, group, url, newCookie, newKey), Entry(newCookie, group.value, newKey, url));
    }
  }

  lemma GrantSound(site: Site, cookie: string, group: string, key: string, url: string, newCookie: string,
                   token: string)
    requires Sound(site) && group in site.peers && Fresh(site, newCookie) && Flow(cookie, group, key, url) in site.flows
    ensures Sound(Granted(site, cookie, group, key, url, newCookie, token))
  {
    var site' := Granted(site, cookie, group, key, url, newCookie, token);
    assert Grant(cookie, group, key, url, newCookie, token) in site'.grants;
    WriteAdded(site, site', Entry(newCookie, group, TOKEN_KEY, token));
  }

  lemma FlushIsNew(site: Site, i: nat)
    requires WritesAccounted(site) && OneEach(site) && i < |site.writes|
    ensures var w := site.writes[i]; RedisKey(w.cookie, w.group, w.key) !in site.store
  {
    hide RedisKey;
    assert site.writes[i] in site.writes;
  }

  lemma FlushSound(site: Site, i: nat)
    requires Sound(site) && i < |site.writes|
    ensures Sound(Flushed(site, i))
  {
    hide RedisKey;
    var site', w := Flushed(site, i), site.writes[i];
    assert w in site.writes;
    forall j | 0 <= j < |site'.writes|
      ensures site'.writes[j] in site.writes && site'.writes[j].cookie != w.cookie
    {
      assert site'.writes[j] == site.writes[if j < i then j else j + 1];
    }
    forall c, g, k | g in site.peers && SessionKey(k) && RedisKey(c, g, k) in site'.store
      ensures (c, g, k) == (w.cookie, w.group, w.key) || RedisKey(c, g, k) in site.store
      ensures RedisKey(c, g, k) in site.store ==> site'.store[RedisKey(c, g, k)] == site.store[RedisKey(c, g, k)]
    {
      if RedisKey(c, g, k) == RedisKey(w.cookie, w.group, w.key) {
        RedisKeyInjective(site.peers, c, g, k, w.cookie, w.group, w.key);
        FlushIsNew(site, i);
      }
    }
    forall c, g, k, v | Accounted(site, c, g, k, v) ensures Accounted(site', c, g, k, v) {
    }
  }

  lemma SoundStep(site: Site, step: Step)
    requires Sound(site) && Enabled(site, step)
    ensures Sound(After(site, step))
  {
    hide Sound;
    match step {
      case Visit(group, url, newCookie, newKey) => RedirectSound(site, group, url, newCookie, newKey);
      case Callback(cookie, group, query, newCookie, newKey, token) =>
        var (key, url) := Decoded(query);
        if Get(site.store, cookie, group, key) == Some(url) {
          SoundStore(site);
          FoundIsFlow(site, cookie, group, key, url);
          GrantSound(site, cookie, group.value, key, url, newCookie, token);
        } else {
          RedirectSound(site, group, url, newCookie, newKey);
        }
      case Flush(i) => FlushSound(site, i);
    }
  }

  lemma SoundStore(site: Site)
    requires Sound(site)
    ensures StoreAccounted(site)
  {
  }

  ghost predicate Grows(store: map<string, string>, store': map<string, string>) {
    forall k | k in store :: k in store' && store'[k] == store[k]
  }

  lemma GrowsStep(site: Site, step: Step)
    requires Sound(site) && Enabled(site, step)
    ensures Grows(site.store, After(site, step).store)
  {
    if step.Flush? {
      FlushIsNew(site, step.i);
    }
  }

  // ---------------------------------------------------------------------------------------------
  // Whole runs
  // ---------------------------------------------------------------------------------------------

  ghost predicate Legal(site: Site, steps: seq<Step>)
    decreases |steps|
  {
    steps == [] || (Enabled(site, steps[0]) && Legal(After(site, steps[0]), steps[1..]))
  }

  ghost function Final(site: Site, steps: seq<Step>): Site
    requires Legal(site, steps)
    decreases |steps|
  {
    if steps == [] then site else Final(After(site, steps[0]), steps[1..])
  }

  function Empty(peers: set<string>): Site {
    Site(peers, map[], [], {}, {})
  }

  /** Whatever interleaves with whatever, the session store only grows: no request loses what another has
      stored. */
  lemma {:induction false} NothingIsLost(site: Site, steps: seq<Step>)
    requires Legal(site, steps) && Sound(site)
    ensures Sound(Final(site, steps)) && Grows(site.store, Final(site, steps).store)
    decreases |steps|
  {
    hide Sound;
    if steps != [] {
      SoundStep(site, steps[0]);
      GrowsStep(site, steps[0]);
      NothingIsLost(After(site, steps[0]), steps[1..]);
    }
  }

  lemma {:induction false} PrefixLegal(site: Site, steps: seq<Step>, n: nat)
    requires Legal(site, steps) && n < |steps|
    ensures Legal(site, steps[..n]) && Enabled(Final(site, steps[..n]), steps[n])
    ensures Legal(site, steps[..n + 1])
    ensures Final(site, steps[..n + 1]) == After(Final(site, steps[..n]), steps[n])
    decreases n
  {
    if n > 0 {
      PrefixLegal(After(site, steps[0]), steps[1..], n - 1);
      assert steps[1..][..n - 1] == steps[..n][1..] && steps[1..][..n] == steps[..n + 1][1..];
    } else {
      assert steps[..1][1..] == [];
    }
  }

  lemma {:induction false} FinalPeers(site: Site, steps: seq<Step>)
    requires Legal(site, steps)
    ensures Final(site, steps).peers == site.peers
    decreases |steps|
  {
    if steps != [] {
      FinalPeers(After(site, steps[0]), steps[1..]);
    }
  }

  /** The site before a step of a run. */
  ghost function Until(peers: set<string>, steps: seq<Step>, n: nat): Site
    requires Legal(Empty(peers), steps) && n <= |steps|
  {
    if n < |steps| then PrefixLegal(Empty(peers), steps, n); Final(Empty(peers), steps[..n])
    else Final(Empty(peers), steps)
  }

  lemma UntilNext(peers: set<string>, steps: seq<Step>, n: nat)
    requires Legal(Empty(peers), steps) && n < |steps|
    ensures Enabled(Until(peers, steps, n), steps[n])
    ensures Until(peers, steps, n + 1) == After(Until(peers, steps, n), steps[n])
  {
    PrefixLegal(Empty(peers), steps, n);
    assert n + 1 == |steps| ==> steps[..n + 1] == steps;
  }

  /** The step sends a client to sign-on: it makes the flow, of the cookie and the key it gives out and the
      URL it was asked for. */
  ghost predicate Sends(site: Site, step: Step, flow: Flow) {
    && Enabled(site, step) && flow !in site.flows && flow in After(site, step).flows
    && match step
       case Visit(group, url, newCookie, newKey) => group.Some? && flow == Flow(newCookie, group.value, newKey, url)
       case Callback(_, group, query, newCookie, newKey, _) =>
         group.Some? && flow == Flow(newCookie, group.value, newKey, Decoded(query).1)
       case Flush(_) => false
  }

  /** The step is a callback that is granted a token: it presents the grant's cookie and a state with its
      key and URL, and is given the grant's new cookie and its token. */
  ghost predicate Grants(site: Site, step: Step, grant: Grant) {
    && Enabled(site, step) && grant !in site.grants && grant in After(site, step).grants
    && step.Callback? && step.cookie == grant.cookie && step.group == Some(grant.group)
    && Decoded(step.query) == (grant.key, grant.url)
    && step.newCookie == grant.newCookie && step.token == grant.token
  }

  ghost predicate SentBefore(peers: set<string>, steps: seq<Step>, n: nat, flow: Flow)
    requires Legal(Empty(peers), steps) && n <= |steps|
  {
    exists m: nat | m < n :: Sends(Until(peers, steps, m), steps[m], flow)
  }

  ghost predicate GrantedBefore(peers: set<string>, steps: seq<Step>, n: nat, grant: Grant)
    requires Legal(Empty(peers), steps) && n <= |steps|
  {
    exists m: nat | m < n ::
      && Grants(Until(peers, steps, m), steps[m], grant)
      && SentBefore(peers, steps, m, Flow(grant.cookie, grant.group, grant.key, grant.url))
  }

  /** Flows and grants are of steps before. */
  ghost predicate Recorded(peers: set<string>, steps: seq<Step>, n: nat)
    requires Legal(Empty(peers), steps) && n <= |steps|
  {
    && (forall f | f in Until(peers, steps, n).flows :: SentBefore(peers, steps, n, f))
    && (forall g | g in Until(peers, steps, n).grants :: GrantedBefore(peers, steps, n, g))
  }

  lemma StepRecords(site: Site, step: Step)
    requires Sound(site) && Enabled(site, step)
    ensures forall f | f in After(site, step).flows :: f in site.flows || Sends(site, step, f)
    ensures forall g | g in After(site, step).grants ::
              g in site.grants || (Grants(site, step, g) && Flow(g.cookie, g.group, g.key, g.url) in site.flows)
  {
    if step.Callback? {
      var (key, url) := Decoded(step.query);
      if Get(site.store, step.cookie, step.group, key) == Some(url) {
        SoundStore(site);
        FoundIsFlow(site, step.cookie, step.group, key, url);
      }
    }
  }

  lemma {:induction false} RunRecords(peers: set<string>, steps: seq<Step>, n: nat)
    requires Legal(Empty(peers), steps) && Apart(peers) && n <= |steps|
    ensures Sound(Until(peers, steps, n)) && Recorded(peers, steps, n)
  {
    hide Sound;
    hide After;
    hide Sends;
    hide Grants;
    hide Legal;
    if n == 0 {
      EmptySound(peers);
      assert Until(peers, steps, 0) == Empty(peers);
    } else {
      RunRecords(peers, steps, n - 1);
      UntilNext(peers, steps, n - 1);
      hide Until;
      var site := Until(peers, steps, n - 1);
      SoundStep(site, steps[n - 1]);
      StepRecords(site, steps[n - 1]);
    }
  }

  lemma EmptySound(peers: set<string>)
    requires Apart(peers)
    ensures Sound(Empty(peers))
  {
  }

  /** In every run, the token in a session is the one that was granted in a callback under this cookie. The
      callback presented a cookie from the same peer group, and before it a redirect had given out that
      cookie, to that peer group, with the key and for the URL that the callback named. */
  lemma TokensAreEarned(peers: set<string>, steps: seq<Step>, cookie: string, group: string)
    requires Legal(Empty(peers), steps) && Apart(peers) && group in peers
    requires Get(Final(Empty(peers), steps).store, cookie, Some(group), TOKEN_KEY).Some?
    ensures exists g: Grant ::
              && g.newCookie == cookie && g.group == group && GrantedBefore(peers, steps, |steps|, g)
              && Get(Final(Empty(peers), steps).store, cookie, Some(group), TOKEN_KEY) == Some(g.token)
  {
    hide Sound;
    hide StoreAccounted;
    hide RedisKey;
    hide GrantedBefore;
    hide Legal;
    hide Apart;
    hide Get;
    RunRecords(peers, steps, |steps|);
    FinalPeers(Empty(peers), steps);
    var site := Final(Empty(peers), steps);
    SoundStore(site);
    var g := TokenIsGranted(site, cookie, group);
    assert GrantedBefore(peers, steps, |steps|, g);
  }

  lemma TokenIsGranted(site: Site, cookie: string, group: string) returns (g: Grant)
    requires StoreAccounted(site) && group in site.peers && Get(site.store, cookie, Some(group), TOKEN_KEY).Some?
    ensures g in site.grants && g.newCookie == cookie && g.group == group
    ensures Get(site.store, cookie, Some(group), TOKEN_KEY) == Some(g.token)
  {
    hide RedisKey;
    assert SessionKey(TOKEN_KEY);
    var token := site.store[RedisKey(cookie, group, TOKEN_KEY)];
    assert Accounted(site, cookie, group, TOKEN_KEY, token);
    g :| g in site.grants && g.newCookie == cookie && g.group == group && g.token == token;
  }

  // ---------------------------------------------------------------------------------------------
  // Completing the flow
  // ---------------------------------------------------------------------------------------------

  /** A client that comes back with the cookie and state of its redirect is granted a token if and only
      if the URL it set out for has no percent escape. Otherwise it is sent to sign-on again, for the
      unescaped URL, or the request fails because that is not ASCII. */
  lemma HonestFlow(site: Site, cookie: string, group: string, key: string, url: string, newCookie: string,
                   newKey: string, token: string)
    requires cookie != "" && Plain(key) && '%' !in key && Ascii(key + "_" + url)
    requires Get(site.store, cookie, Some(group), key) == Some(url)
    ensures After(site, Callback(cookie, Some(group), Quote(key + "_" + url), newCookie, newKey, token))
            == if !HasEscape(url) then Granted(site, cookie, group, key, url, newCookie, token)
               else Redirected(site, Some(group), Unquote(url), newCookie, newKey)
  {
    StateRoundTrip(key, url);
    UnquoteKeeps(url);
  }

  /** The URL, unescaped until no escape is left. */
  ghost function Landing(url: string): (landing: string)
    ensures !HasEscape(landing) && |landing| <= |url|
    ensures landing == url <==> !HasEscape(url)
    decreases |url|
  {
    UnquoteKeeps(url);
    if HasEscape(url) then Landing(Unquote(url)) else url
  }

  /** Every URL on the way there can be stored. */
  ghost predicate Passes(url: string)
    decreases |url|
  {
    UnquoteKeeps(url);
    Ascii(url) && (HasEscape(url) ==> Passes(Unquote(url)))
  }

  /** A cookie and a key to be given out. */
  datatype Issue = Issue(cookie: string, key: string) {
    predicate Valid() {
      cookie != "" && forall i | 0 <= i < |key| :: HexDigit(key[i])
    }
  }

  /** Each redirect and each grant gives out something new. */
  ghost predicate Issuable(site: Site, issues: seq<Issue>) {
    && (forall i | 0 <= i < |issues| :: issues[i].Valid() && Fresh(site, issues[i].cookie))
    && (forall i, j | 0 <= i < j < |issues| :: issues[i].cookie != issues[j].cookie)
  }

  lemma HexState(issue: Issue, url: string)
    requires issue.Valid() && Ascii(url)
    ensures issue.cookie != "" && Ascii(issue.key + "_" + url) && Plain(issue.key) && '%' !in issue.key
  {
  }

  /** The client comes back from sign-on, with what it was given when it was sent there. */
  function Return(group: string, issue: Issue, url: string, next: Issue, token: string): Step
    requires issue.Valid() && Ascii(url)
  {
    HexState(issue, url);
    Callback(issue.cookie, Some(group), Quote(issue.key + "_" + url), next.cookie, next.key, token)
  }

  /** A client that comes back from sign-on as often as it is sent there. What a redirect stores is in the
      store when the client comes back. */
  ghost function HonestClient(site: Site, group: string, issue: Issue, url: string, issues: seq<Issue>, token: string)
    : seq<Step>
    requires issue.Valid() && Ascii(url) && |issues| > |url| && forall i | 0 <= i < |issues| :: issues[i].Valid()
    decreases |url|
  {
    UnquoteKeeps(url);
    var back := Return(group, issue, url, issues[0], token);
    if !HasEscape(url) then [back, Flush(|site.writes|)]
    else if !Ascii(Unquote(url)) then [back]
    else
      var sent := Redirected(site, Some(group), Unquote(url), issues[0].cookie, issues[0].key);
      [back, Flush(|site.writes|)]
      + HonestClient(Flushed(sent, |site.writes|), group, issues[0], Unquote(url), issues[1..], token)
  }

  lemma RedirectReaches(site: Site, group: string, url: string, issue: Issue)
    requires issue.cookie != "" && Ascii(url)
    ensures var sent := Redirected(site, Some(group), url, issue.cookie, issue.key);
            var there := Flushed(sent, |site.writes|);
            && Get(there.store, issue.cookie, Some(group), issue.key) == Some(url)
            && there == site.(store := there.store, flows := sent.flows)
  {
    var sent := Redirected(site, Some(group), url, issue.cookie, issue.key);
    assert sent.writes[..|site.writes|] + sent.writes[|site.writes| + 1..] == site.writes;
  }

  /** One grant more, for where the URL lands, and the token in the session under its cookie; or none. */
  ghost predicate Outcome(site: Site, group: string, url: string, token: string, end: Site) {
    if Passes(url) then
      exists g: Grant ::
        && g !in site.grants && g.group == group && g.url == Landing(url) && end.grants == site.grants + {g}
        && Get(end.store, g.newCookie, Some(group), TOKEN_KEY) == Some(token)
    else end.grants == site.grants
  }

  lemma OneStep(site: Site, step: Step)
    requires Enabled(site, step)
    ensures Legal(site, [step]) && Final(site, [step]) == After(site, step)
  {
    hide Enabled;
    hide After;
    assert [step][1..] == [];
  }

  lemma NoSteps(site: Site)
    ensures Legal(site, []) && Final(site, []) == site
  {
  }

  lemma TwoSteps(site: Site, step: Step, next: Step, rest: seq<Step>)
    requires Enabled(site, step) && Enabled(After(site, step), next) && Legal(After(After(site, step), next), rest)
    ensures Legal(site, [step, next] + rest)
    ensures Final(site, [step, next] + rest) == Final(After(After(site, step), next), rest)
  {
    hide After;
    assert ([step, next] + rest)[1..] == [next] + rest && ([next] + rest)[1..] == rest;
  }

  lemma ReturnEnabled(site: Site, group: string, issue: Issue, url: string, issues: seq<Issue>, token: string)
    requires issue.Valid() && Ascii(url) && group in site.peers && Issuable(site, issues) && issues != []
    ensures Enabled(site, Return(group, issue, url, issues[0], token))
  {
    HexState(issues[0], url);
  }

  /** The last round: a grant, whose token reaches the store. */
  lemma LastRound(site: Site, group: string, issue: Issue, url: string, next: Issue, token: string)
    requires issue.Valid() && next.Valid() && Ascii(url) && Fresh(site, next.cookie) && !HasEscape(url)
    requires Get(site.store, issue.cookie, Some(group), issue.key) == Some(url)
    ensures var back := After(site, Return(group, issue, url, next, token));
            |back.writes| > |site.writes| && Outcome(site, group, url, token, Flushed(back, |site.writes|))
  {
    HexState(issue, url);
    HonestFlow(site, issue.cookie, group, issue.key, url, next.cookie, next.key, token);
    UnquoteKeeps(url);
    var g := Grant(issue.cookie, group, issue.key, url, next.cookie, token);
    assert g !in site.grants;
    assert next.cookie != "";
  }

  /** The last round of another kind: a failure. */
  lemma FailedRound(site: Site, group: string, issue: Issue, url: string, next: Issue, token: string)
    requires issue.Valid() && next.Valid() && Ascii(url) && HasEscape(url) && !Ascii(Unquote(url))
    requires Get(site.store, issue.cookie, Some(group), issue.key) == Some(url)
    ensures Outcome(site, group, url, token, After(site, Return(group, issue, url, next, token)))
  {
    hide Get;
    HexState(issue, url);
    HonestFlow(site, issue.cookie, group, issue.key, url, next.cookie, next.key, token);
    UnquoteKeeps(url);
    assert !Passes(Unquote(url));
  }

  /** Such a client is granted one token, for where its URL lands, and has it in its session, if and only
      if every URL on the way can be stored. */
  lemma {:induction false} HonestClientLands(site: Site, group: string, issue: Issue, url: string, issues: seq<Issue>,
                                             token: string)
    requires issue.Valid() && Ascii(url) && group in site.peers && Issuable(site, issues) && |issues| > |url|
    requires Get(site.store, issue.cookie, Some(group), issue.key) == Some(url)
    ensures var run := HonestClient(site, group, issue, url, issues, token);
            && Legal(site, run)
            && Outcome(site, group, url, token, Final(site, run))
    decreases |url|
  {
    hide Get;
    hide Ascii;
    hide Issue.Valid;
    hide Fresh;
    hide Legal;
    hide Final;
    UnquoteKeeps(url);
    var next, back := issues[0], Return(group, issue, url, issues[0], token);
    ReturnEnabled(site, group, issue, url, issues, token);
    if !HasEscape(url) {
      LastRound(site, group, issue, url, next, token);
      NoSteps(After(After(site, back), Flush(|site.writes|)));
      TwoSteps(site, back, Flush(|site.writes|), []);
      assert [back, Flush(|site.writes|)] + [] == [back, Flush(|site.writes|)];
    } else if !Ascii(Unquote(url)) {
      FailedRound(site, group, issue, url, next, token);
      OneStep(site, back);
    } else {
      var sent, flush := Redirected(site, Some(group), Unquote(url), next.cookie, next.key), Flush(|site.writes|);
      var there := Flushed(sent, |site.writes|);
      SentAgain(site, group, issue, url, next, token);
      StillIssuable(site, there, group, Unquote(url), issues);
      HonestClientLands(there, group, next, Unquote(url), issues[1..], token);
      TwoSteps(site, back, flush, HonestClient(there, group, next, Unquote(url), issues[1..], token));
      var end := Final(there, HonestClient(there, group, next, Unquote(url), issues[1..], token));
      SameOutcome(site, there, group, url, token, end);
    }
  }

  lemma SameOutcome(site: Site, there: Site, group: string, url: string, token: string, end: Site)
    requires HasEscape(url) && Ascii(url) && there.grants == site.grants && Outcome(there, group, Unquote(url), token, end)
    ensures Outcome(site, group, url, token, end)
  {
    UnquoteKeeps(url);
  }

  lemma SentAgain(site: Site, group: string, issue: Issue, url: string, next: Issue, token: string)
    requires issue.Valid() && next.Valid() && Ascii(url) && HasEscape(url) && Ascii(Unquote(url))
    requires Get(site.store, issue.cookie, Some(group), issue.key) == Some(url)
    ensures var sent := Redirected(site, Some(group), Unquote(url), next.cookie, next.key);
            var there := Flushed(sent, |site.writes|);
            && After(site, Return(group, issue, url, next, token)) == sent
            && |site.writes| < |sent.writes|
            && Get(there.store, next.cookie, Some(group), next.key) == Some(Unquote(url))
            && there == site.(store := there.store, flows := site.flows + {Flow(next.cookie, group, next.key, Unquote(url))})
  {
    hide Get;
    HexState(issue, url);
    HonestFlow(site, issue.cookie, group, issue.key, url, next.cookie, next.key, token);
    RedirectReaches(site, group, Unquote(url), next);
  }

  lemma StillIssuable(site: Site, there: Site, group: string, url: string, issues: seq<Issue>)
    requires Issuable(site, issues) && issues != [] && there.grants == site.grants
    requires there.flows == site.flows + {Flow(issues[0].cookie, group, issues[0].key, url)}
    ensures Issuable(there, issues[1..])
  {
    hide Issue.Valid;
    forall i | 0 <= i < |issues[1..]| ensures issues[1..][i].Valid() && Fresh(there, issues[1..][i].cookie) {
      assert issues[1..][i] == issues[i + 1];
    }
  }
}
