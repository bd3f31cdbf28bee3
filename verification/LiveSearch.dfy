/** Live search: the form, the state it was last submitted in, a cache of results, and replies that
    come in any order. */
module LiveSearch {

  type Key = string
  type Response = string

  /** What a server answers depends on the query alone. */
  type Server = Key -> Response

  /** The serialised form: the part of the search box, and the part of the controls that going back in
      history restores. */
  datatype Fields = Fields(search: string, rest: string) {
    function Param(): Key {
      search + rest
    }
  }

  /** A request remembers the state it is for, and what was sent. */
  datatype Request = Request(key: Key, sent: Key)

  datatype Shown = Results(response: Response) | Error

  datatype Page = Page(
    form: Fields,
    state: Fields,
    cache: map<Key, Response>,
    pending: seq<Request>,
    shown: Shown)

  datatype Step =
    | Edit(form: Fields)
    | Submit
    | Pop(state: Fields)
    | Reply(i: nat)
    | Fail(i: nat)

  predicate Enabled(p: Page, step: Step) {
    (step.Reply? || step.Fail?) ==> step.i < |p.pending|
  }

  function Loaded(form: Fields, server: Server): Page {
    Page(form, form, map[], [], Results(server(form.Param())))
  }

  function Displayed(p: Page, response: Response, key: Key): Page {
    if key == p.state.Param() && key != "" then p.(shown := Results(response)) else p
  }

  function Updated(p: Page): Page {
    var key := p.state.Param();
    if key in p.cache then Displayed(p, p.cache[key], key)
    else p.(pending := p.pending + [Request(key, p.form.Param())])
  }

  /** Going back in history restores all controls but the search box. */
  function Restored(form: Fields, state: Fields): Fields {
    Fields(form.search, state.rest)
  }

  function Without(pending: seq<Request>, i: nat): seq<Request>
    requires i < |pending|
  {
    pending[..i] + pending[i + 1..]
  }

  function After(p: Page, step: Step, server: Server): Page
    requires Enabled(p, step)
  {
    match step
    case Edit(form) => p.(form := form)
    case Submit => if p.state.Param() == p.form.Param() then p else Updated(p.(state := p.form))
    case Pop(state) => Updated(p.(state := state, form := Restored(p.form, state)))
    case Reply(i) =>
      var r := p.pending[i];
      var response := server(r.sent);
      Displayed(p.(pending := Without(p.pending, i), cache := p.cache[r.key := response]), response, r.key)
    case Fail(i) => p.(pending := Without(p.pending, i), shown := Error)
  }

  // ---------------------------------------------------------------------------------------------
  // The code
  // ---------------------------------------------------------------------------------------------

  class Search {
    var form: Fields
    var state: Fields
    var resultsCache: map<Key, Response>
    var pending: seq<Request>
    var wrapper: Shown

    ghost function Now(): Page
      reads this
    {
      Page(form, state, resultsCache, pending, wrapper)
    }

    constructor (form: Fields, ghost server: Server, served: Response)
      requires served == server(form.Param())
      ensures Now() == Loaded(form, server)
    {
      this.form, state := form, form;
      resultsCache, pending, wrapper := map[], [], Results(served);
    }

    method FormChange(ghost server: Server)
      modifies this
      ensures Now() == After(old(Now()), Submit, server)
      ensures form == old(form) && resultsCache == old(resultsCache)
      ensures old(state).Param() == form.Param() ==>
                state == old(state) && pending == old(pending) && wrapper == old(wrapper)
      ensures old(state).Param() != form.Param() ==>
                && state == form
                && (if form.Param() in resultsCache then
                      && pending == old(pending)
                      && wrapper == if form.Param() != "" then Results(resultsCache[form.Param()]) else old(wrapper)
                    else pending == old(pending) + [Request(form.Param(), form.Param())] && wrapper == old(wrapper))
    {
      if state.Param() != form.Param() {
        state := form;
        UpdateResults();
      }
    }

    method PopState(restored: Fields, ghost server: Server)
      modifies this
      ensures Now() == After(old(Now()), Pop(restored), server)
      ensures state == restored && form == Fields(old(form).search, restored.rest)
      ensures resultsCache == old(resultsCache)
      ensures var key := restored.Param();
              if key in resultsCache then
                && pending == old(pending)
                && wrapper == if key != "" then Results(resultsCache[key]) else old(wrapper)
              else pending == old(pending) + [Request(key, form.Param())] && wrapper == old(wrapper)
    {
      state := restored;
      form := form.(rest := state.rest);
      UpdateResults();
    }

    method UpdateResults()
      modifies this`pending, this`wrapper
      ensures Now() == Updated(old(Now()))
    {
      var searchState := state.Param();
      if searchState in resultsCache {
        DisplayFilterResults(resultsCache[searchState], searchState);
      } else {
        pending := pending + [Request(searchState, form.Param())];
      }
    }

    method DisplayFilterResults(response: Response, searchState: Key)
      modifies this`wrapper
      ensures Now() == Displayed(old(Now()), response, searchState)
      ensures wrapper == if searchState == state.Param() && searchState != "" then Results(response) else old(wrapper)
    {
      if searchState == state.Param() && searchState != "" {
        wrapper := Results(response);
      }
    }

    method Done(i: nat, response: Response, ghost server: Server)
      requires i < |pending| && response == server(pending[i].sent)
      modifies this
      ensures Now() == After(old(Now()), Reply(i), server)
      ensures form == old(form) && state == old(state)
      ensures pending == old(pending)[..i] + old(pending)[i + 1..]
      ensures resultsCache == old(resultsCache)[old(pending)[i].key := response]
      ensures var key := old(pending)[i].key;
              wrapper == if key == state.Param() && key != "" then Results(response) else old(wrapper)
    {
      var request := pending[i];
      pending := pending[..i] + pending[i + 1..];
      resultsCache := resultsCache[request.key := response];
      DisplayFilterResults(response, request.key);
    }

    method ShowError(i: nat, ghost server: Server)
      requires i < |pending|
      modifies this
      ensures Now() == After(old(Now()), Fail(i), server)
      ensures form == old(form) && state == old(state) && resultsCache == old(resultsCache)
      ensures pending == old(pending)[..i] + old(pending)[i + 1..] && wrapper == Error
    {
      pending := pending[..i] + pending[i + 1..];
      wrapper := Error;
    }
  }

  // ---------------------------------------------------------------------------------------------
  // The cache
  // ---------------------------------------------------------------------------------------------

  ghost predicate CacheRight(p: Page, server: Server) {
    forall k | k in p.cache :: p.cache[k] == server(k)
  }

  /** What was sent is what the reply will be taken for. */
  ghost predicate SentRight(p: Page) {
    forall i | 0 <= i < |p.pending| :: p.pending[i].sent == p.pending[i].key
  }

  /** Going back to a state whose results are not cached, and whose search text is not in the box. */
  predicate Misleads(p: Page, step: Step) {
    step.Pop? && step.state.Param() !in p.cache && step.state.search != p.form.search
  }

  lemma WithoutElements(pending: seq<Request>, i: nat)
    requires i < |pending|
    ensures forall j | 0 <= j < |Without(pending, i)| :: Without(pending, i)[j] in pending
    ensures forall r | r in pending :: r == pending[i] || r in Without(pending, i)
  {
    var rest := Without(pending, i);
    forall r | r in pending ensures r == pending[i] || r in rest {
      var j :| 0 <= j < |pending| && pending[j] == r;
      if j < i {
        assert rest[j] == r;
      } else if j > i {
        assert rest[j - 1] == r;
      }
    }
  }

  lemma SameRest(a: string, b: string, rest: string)
    ensures a + rest == b + rest <==> a == b
  {
    if a + rest == b + rest {
      assert |a| == |b|;
      assert (a + rest)[..|a|] == a && (b + rest)[..|b|] == b;
    }
  }

  /** Requests stay right exactly as long as no step goes back misleadingly. */
  lemma SentStep(p: Page, step: Step, server: Server)
    requires Enabled(p, step) && SentRight(p)
    ensures SentRight(After(p, step, server)) <==> !Misleads(p, step)
  {
    match step {
      case Pop(state) =>
        SameRest(p.form.search, state.search, state.rest);
        var p' := After(p, step, server);
        if state.Param() !in p.cache {
          assert p'.pending[|p.pending|] == Request(state.Param(), Restored(p.form, state).Param());
        }
      case Reply(i) => WithoutElements(p.pending, i);
      case Fail(i) => WithoutElements(p.pending, i);
      case _ =>
    }
  }

  /** The reply to a request that asked for something else, and got another answer for it. */
  predicate Poisons(p: Page, step: Step, server: Server)
    requires Enabled(p, step)
  {
    step.Reply? && server(p.pending[step.i].sent) != server(p.pending[step.i].key)
  }

  ghost predicate TellsApart(server: Server) {
    forall k, l :: server(k) == server(l) ==> k == l
  }

  /** The cache stays right exactly as long as no step poisons it. If the server tells keys apart, a reply
      does so exactly if its request was sent for another key than it is kept under. */
  lemma CacheStep(p: Page, step: Step, server: Server)
    requires Enabled(p, step) && CacheRight(p, server)
    ensures CacheRight(After(p, step, server), server) <==> !Poisons(p, step, server)
    ensures SentRight(p) ==> !Poisons(p, step, server)
    ensures TellsApart(server) && step.Reply? ==>
              (Poisons(p, step, server) <==> p.pending[step.i].sent != p.pending[step.i].key)
  {
    if step.Reply? {
      var r := p.pending[step.i];
      assert After(p, step, server).cache == p.cache[r.key := server(r.sent)];
      assert r.key in After(p, step, server).cache;
    }
  }

  // ---------------------------------------------------------------------------------------------
  // What is shown
  // ---------------------------------------------------------------------------------------------

  ghost predicate OwnShown(p: Page, server: Server) {
    p.shown == Results(server(p.state.Param()))
  }

  ghost predicate OwnPending(p: Page) {
    exists i | 0 <= i < |p.pending| :: p.pending[i].key == p.state.Param()
  }

  /** The current state's own results are shown, or on their way. */
  ghost predicate Current(p: Page, server: Server) {
    p.state.Param() == "" || OwnShown(p, server) || OwnPending(p)
  }

  /** A failure with no other request for the current state on its way. */
  ghost predicate Spoils(p: Page, step: Step)
    requires Enabled(p, step)
  {
    && step.Fail? && p.state.Param() != ""
    && forall j | 0 <= j < |p.pending| && j != step.i :: p.pending[j].key != p.state.Param()
  }

  lemma CurrentStep(p: Page, step: Step, server: Server)
    requires Enabled(p, step) && SentRight(p) && CacheRight(p, server) && Current(p, server)
    ensures Current(After(p, step, server), server) <==> !Spoils(p, step)
  {
    var p' := After(p, step, server);
    match step {
      case Edit(_) =>
      case Submit =>
        if p.state.Param() != p.form.Param() {
          UpdatedCurrent(p.(state := p.form), server);
        }
      case Pop(state) => UpdatedCurrent(p.(state := state, form := Restored(p.form, state)), server);
      case Reply(i) => OwnStays(p, i);
      case Fail(i) => OwnStays(p, i);
    }
  }

  lemma UpdatedCurrent(p: Page, server: Server)
    requires CacheRight(p, server)
    ensures Current(Updated(p), server)
  {
    if p.state.Param() !in p.cache {
      assert Updated(p).pending[|p.pending|].key == p.state.Param();
    }
  }

  /** A request is still on its way after another was answered. */
  lemma OwnStays(p: Page, i: nat)
    requires i < |p.pending|
    ensures OwnPending(p.(pending := Without(p.pending, i)))
            <==> exists j | 0 <= j < |p.pending| && j != i :: p.pending[j].key == p.state.Param()
  {
    var rest, key := Without(p.pending, i), p.state.Param();
    if j :| 0 <= j < |p.pending| && j != i && p.pending[j].key == key {
      assert rest[if j < i then j else j - 1].key == key;
    }
    if j :| 0 <= j < |rest| && rest[j].key == key {
      assert rest[j] == p.pending[if j < i then j else j + 1];
    }
  }

  // ---------------------------------------------------------------------------------------------
  // Whole runs
  // ---------------------------------------------------------------------------------------------

  predicate Legal(p: Page, steps: seq<Step>, server: Server)
    decreases |steps|
  {
    steps == [] || (Enabled(p, steps[0]) && Legal(After(p, steps[0], server), steps[1..], server))
  }

  function Final(p: Page, steps: seq<Step>, server: Server): Page
    requires Legal(p, steps, server)
    decreases |steps|
  {
    if steps == [] then p else Final(After(p, steps[0], server), steps[1..], server)
  }

  predicate NeverMisleads(p: Page, steps: seq<Step>, server: Server)
    requires Legal(p, steps, server)
    decreases |steps|
  {
    steps != [] ==> !Misleads(p, steps[0]) && NeverMisleads(After(p, steps[0], server), steps[1..], server)
  }

  ghost predicate AlwaysSentRight(p: Page, steps: seq<Step>, server: Server)
    requires Legal(p, steps, server)
    decreases |steps|
  {
    SentRight(p) && (steps != [] ==> AlwaysSentRight(After(p, steps[0], server), steps[1..], server))
  }

  /** In every interleaving, every request asks for what its reply is cached as if and only if nothing
      goes back misleadingly; and then the cache is right at the end. */
  lemma {:induction false} CacheRuns(p: Page, steps: seq<Step>, server: Server)
    requires Legal(p, steps, server) && SentRight(p) && CacheRight(p, server)
    ensures AlwaysSentRight(p, steps, server) <==> NeverMisleads(p, steps, server)
    ensures NeverMisleads(p, steps, server) ==>
              CacheRight(Final(p, steps, server), server) && SentRight(Final(p, steps, server))
    decreases |steps|
  {
    if steps != [] {
      SentStep(p, steps[0], server);
      CacheStep(p, steps[0], server);
      if !Misleads(p, steps[0]) {
        CacheRuns(After(p, steps[0], server), steps[1..], server);
      }
    }
  }

  ghost predicate NeverPoisons(p: Page, steps: seq<Step>, server: Server)
    requires Legal(p, steps, server)
    decreases |steps|
  {
    steps != [] ==> !Poisons(p, steps[0], server) && NeverPoisons(After(p, steps[0], server), steps[1..], server)
  }

  ghost predicate AlwaysCacheRight(p: Page, steps: seq<Step>, server: Server)
    requires Legal(p, steps, server)
    decreases |steps|
  {
    CacheRight(p, server) && (steps != [] ==> AlwaysCacheRight(After(p, steps[0], server), steps[1..], server))
  }

  /** In every interleaving, the cache is right all the time if and only if no reply is to a request that
      asked for something with another answer. For a server that tells keys apart, that is any request
      that was sent misleadingly. */
  lemma {:induction false} CacheStaysRight(p: Page, steps: seq<Step>, server: Server)
    requires Legal(p, steps, server) && CacheRight(p, server)
    ensures AlwaysCacheRight(p, steps, server) <==> NeverPoisons(p, steps, server)
    decreases |steps|
  {
    if steps != [] {
      CacheStep(p, steps[0], server);
      if !Poisons(p, steps[0], server) {
        CacheStaysRight(After(p, steps[0], server), steps[1..], server);
      }
    }
  }

  ghost predicate NeverSpoils(p: Page, steps: seq<Step>, server: Server)
    requires Legal(p, steps, server)
    decreases |steps|
  {
    steps != [] ==> !Spoils(p, steps[0]) && NeverSpoils(After(p, steps[0], server), steps[1..], server)
  }

  ghost predicate AlwaysCurrent(p: Page, steps: seq<Step>, server: Server)
    requires Legal(p, steps, server)
    decreases |steps|
  {
    Current(p, server) && (steps != [] ==> AlwaysCurrent(After(p, steps[0], server), steps[1..], server))
  }

  /** Whatever the order replies and failures come in, the current state's own results are shown or on
      their way all the time, if and only if no failure spoils them; and then, once nothing is on its way
      for the current state, they are what is shown. */
  lemma {:induction false} CurrentRuns(p: Page, steps: seq<Step>, server: Server)
    requires Legal(p, steps, server) && NeverMisleads(p, steps, server)
    requires SentRight(p) && CacheRight(p, server) && Current(p, server)
    ensures AlwaysCurrent(p, steps, server) <==> NeverSpoils(p, steps, server)
    ensures var q := Final(p, steps, server);
            NeverSpoils(p, steps, server) && q.state.Param() != "" && !OwnPending(q) ==> OwnShown(q, server)
    decreases |steps|
  {
    if steps != [] {
      SentStep(p, steps[0], server);
      CacheStep(p, steps[0], server);
      CurrentStep(p, steps[0], server);
      if !Spoils(p, steps[0]) {
        CurrentRuns(After(p, steps[0], server), steps[1..], server);
      }
    }
  }

  // ---------------------------------------------------------------------------------------------
  // What changes what is shown, and what is asked for
  // ---------------------------------------------------------------------------------------------

  /** The state of a step that looks results up. */
  function LooksUp(p: Page, step: Step): (key: Key)
    requires step.Submit? || step.Pop?
  {
    if step.Submit? then p.form.Param() else step.state.Param()
  }

  /** A submitted form that is the state already is not looked up. */
  predicate Looks(p: Page, step: Step) {
    step.Pop? || (step.Submit? && p.form.Param() != p.state.Param())
  }

  /** What the step shows: kept results of the state it leads to, an answer for the current state, or a
      failure. */
  predicate Shows(p: Page, step: Step, server: Server, shown: Shown)
    requires Enabled(p, step)
  {
    match step
    case Edit(_) => false
    case Reply(i) =>
      p.pending[i].key == p.state.Param() && p.state.Param() != "" && shown == Results(server(p.pending[i].sent))
    case Fail(_) => shown == Error
    case _ =>
      && Looks(p, step) && LooksUp(p, step) in p.cache && LooksUp(p, step) != ""
      && shown == Results(p.cache[LooksUp(p, step)])
  }

  /** A step shows what it shows, and leaves what is shown alone if it shows nothing: a reply for a state
      that was left does so. */
  lemma ShownStep(p: Page, step: Step, server: Server)
    requires Enabled(p, step)
    ensures Shows(p, step, server, After(p, step, server).shown) || After(p, step, server).shown == p.shown
    ensures forall shown | Shows(p, step, server, shown) :: After(p, step, server).shown == shown
    ensures step.Reply? && p.pending[step.i].key != p.state.Param() ==> After(p, step, server).shown == p.shown
  {
  }

  /** No step shows anything. */
  ghost predicate Quiet(p: Page, steps: seq<Step>, server: Server)
    requires Legal(p, steps, server)
    decreases |steps|
  {
    steps != [] ==>
      && (forall shown :: !Shows(p, steps[0], server, shown))
      && Quiet(After(p, steps[0], server), steps[1..], server)
  }

  /** The last step that shows something shows this. */
  ghost predicate ShowsLast(p: Page, steps: seq<Step>, server: Server, shown: Shown)
    requires Legal(p, steps, server)
    decreases |steps|
  {
    && steps != []
    && var p' := After(p, steps[0], server);
       || ShowsLast(p', steps[1..], server, shown)
       || (Quiet(p', steps[1..], server) && Shows(p, steps[0], server, shown))
  }

  /** In every interleaving, what the last step that shows anything shows is what is shown at the end. */
  lemma {:induction false} ShownRuns(p: Page, steps: seq<Step>, server: Server)
    requires Legal(p, steps, server)
    ensures if Quiet(p, steps, server) then Final(p, steps, server).shown == p.shown
            else ShowsLast(p, steps, server, Final(p, steps, server).shown)
    decreases |steps|
  {
    hide After;
    hide Shows;
    if steps != [] {
      ShownStep(p, steps[0], server);
      ShownRuns(After(p, steps[0], server), steps[1..], server);
    }
  }

  /** The request a step sends: for the state it leads to, with what is then in the form. */
  function Asks(p: Page, step: Step): seq<Request> {
    if !Looks(p, step) || LooksUp(p, step) in p.cache then []
    else [Request(LooksUp(p, step), p.form.search + if step.Submit? then p.form.rest else step.state.rest)]
  }

  function Asked(p: Page, steps: seq<Step>, server: Server): multiset<Request>
    requires Legal(p, steps, server)
    decreases |steps|
  {
    if steps == [] then multiset{}
    else multiset(Asks(p, steps[0])) + Asked(After(p, steps[0], server), steps[1..], server)
  }

  function Ended(p: Page, steps: seq<Step>, server: Server): multiset<Request>
    requires Legal(p, steps, server)
    decreases |steps|
  {
    if steps == [] then multiset{}
    else (if steps[0].Reply? || steps[0].Fail? then multiset{p.pending[steps[0].i]} else multiset{})
         + Ended(After(p, steps[0], server), steps[1..], server)
  }

  /** A reply to a request for the key. */
  predicate Answered(p: Page, steps: seq<Step>, server: Server, key: Key)
    requires Legal(p, steps, server)
    decreases |steps|
  {
    && steps != []
    && ((steps[0].Reply? && p.pending[steps[0].i].key == key)
        || Answered(After(p, steps[0], server), steps[1..], server, key))
  }

  lemma TakenOut(pending: seq<Request>, i: nat)
    requires i < |pending|
    ensures multiset(Without(pending, i)) + multiset{pending[i]} == multiset(pending)
  {
    assert pending == pending[..i] + [pending[i]] + pending[i + 1..];
  }

  lemma AsksStep(p: Page, step: Step, server: Server)
    requires Enabled(p, step)
    ensures After(p, step, server).pending
            == if step.Reply? || step.Fail? then Without(p.pending, step.i) else p.pending + Asks(p, step)
    ensures After(p, step, server).cache.Keys
            == p.cache.Keys + if step.Reply? then {p.pending[step.i].key} else {}
  {
  }

  lemma Regroup(end: multiset<Request>, ended: multiset<Request>, next: multiset<Request>, asked: multiset<Request>,
                out: multiset<Request>, now: multiset<Request>, asks: multiset<Request>)
    requires end + ended == next + asked && next + out == now + asks
    ensures end + (out + ended) == now + (asks + asked)
  {
    assert end + (out + ended) == (end + ended) + out;
    assert (next + asked) + out == (next + out) + asked;
    assert (now + asks) + asked == now + (asks + asked);
  }

  lemma NothingAsked(p: Page, step: Step)
    requires step.Reply? || step.Fail?
    ensures Asks(p, step) == []
  {
  }

  /** In every interleaving, every look for results that are not kept sends one request, every request
      ends at most once, and results are kept for exactly those keys that had a reply. */
  lemma {:induction false} RequestsRun(p: Page, steps: seq<Step>, server: Server)
    requires Legal(p, steps, server)
    ensures multiset(Final(p, steps, server).pending) + Ended(p, steps, server)
            == multiset(p.pending) + Asked(p, steps, server)
    ensures forall key :: key in Final(p, steps, server).cache <==> key in p.cache || Answered(p, steps, server, key)
    decreases |steps|
  {
    hide After;
    hide Asks;
    if steps != [] {
      var p' := After(p, steps[0], server);
      AsksStep(p, steps[0], server);
      RequestsRun(p', steps[1..], server);
      var ends := steps[0].Reply? || steps[0].Fail?;
      var out := if ends then multiset{p.pending[steps[0].i]} else multiset{};
      assert multiset(p'.pending) + out == multiset(p.pending) + multiset(Asks(p, steps[0])) by {
        if ends {
          TakenOut(p.pending, steps[0].i);
          NothingAsked(p, steps[0]);
        }
      }
      Regroup(multiset(Final(p', steps[1..], server).pending), Ended(p', steps[1..], server), multiset(p'.pending),
              Asked(p', steps[1..], server), out, multiset(p.pending), multiset(Asks(p, steps[0])));
      forall key ensures key in p'.cache <==> key in p.cache || (steps[0].Reply? && p.pending[steps[0].i].key == key) {
        assert key in p'.cache <==> key in p'.cache.Keys;
      }
    }
  }

  // ---------------------------------------------------------------------------------------------
  // Runs that go wrong
  // ---------------------------------------------------------------------------------------------

  /** Going back with another text in the search box caches the results of that text under the state
      gone back to, where every later visit will find them. */
  lemma BackPoisonsCache(server: Server)
    requires server("q=cats&sort=new") != server("q=dogs&sort=new")
    ensures var cats, dogs := Fields("q=cats", "&sort=new"), Fields("q=dogs", "&sort=new");
            var steps := [Edit(dogs), Submit, Pop(cats), Reply(1)];
            && Legal(Loaded(cats, server), steps, server)
            && var q := Final(Loaded(cats, server), steps, server);
            q.state == cats && q.shown == Results(server(dogs.Param())) && !CacheRight(q, server)
  {
    var cats, dogs := Fields("q=cats", "&sort=new"), Fields("q=dogs", "&sort=new");
    assert cats.Param() == "q=cats&sort=new" && dogs.Param() == "q=dogs&sort=new";
    var p0 := Loaded(cats, server);
    var p1 := After(p0, Edit(dogs), server);
    var p2 := After(p1, Submit, server);
    assert p2.pending == [Request(dogs.Param(), dogs.Param())];
    var p3 := After(p2, Pop(cats), server);
    assert p3.pending == p2.pending + [Request(cats.Param(), dogs.Param())];
    var p4 := After(p3, Reply(1), server);
    assert p4.cache[cats.Param()] == server(dogs.Param());
    var steps := [Edit(dogs), Submit, Pop(cats), Reply(1)];
    assert steps[1..] == [Submit, Pop(cats), Reply(1)];
    assert steps[1..][1..] == [Pop(cats), Reply(1)];
    assert steps[1..][1..][1..] == [Reply(1)];
    assert steps[1..][1..][1..][1..] == [];
    assert Legal(p3, [Reply(1)], server) && Final(p3, [Reply(1)], server) == p4;
    assert Legal(p2, [Pop(cats), Reply(1)], server) && Final(p2, [Pop(cats), Reply(1)], server) == p4;
    assert Legal(p1, steps[1..], server) && Final(p1, steps[1..], server) == p4;
  }

  /** A request that fails after its state was left wipes out the results of the state left it for. */
  lemma FailureOverwrites(p: Page, i: nat, server: Server)
    requires Enabled(p, Fail(i)) && p.pending[i].key != p.state.Param() && OwnShown(p, server)
    ensures After(p, Fail(i), server).shown == Error
    ensures Spoils(p, Fail(i)) <==> p.state.Param() != "" && !OwnPending(p)
  {
    OwnStays(p, i);
  }
}
