/**
 * The shared news loader: a TTL cache checked before and after taking a lock.
 * A call is cut at its awaits; the pieces interleave freely.
 */
module NewsCache {
  import opened Numeric

  const DAY := 86_400_000_000

  datatype Key = Key(symbol: string, days: int, count: int)

  type Articles = seq<string>

  datatype Entry = Entry(fetchedAt: int, articles: Articles)

  /** What the provider is asked. */
  datatype Call = Call(symbol: string, limit: int, since: int)

  datatype Loader = Loader(cache: map<Key, Entry>, holder: Option<nat>)

  datatype Locked = Hit(articles: Articles) | Ask(call: Call)

  function Fresh(cache: map<Key, Entry>, key: Key, now: int, ttl: int): Option<Articles> {
    if key !in cache || now - cache[key].fetchedAt >= ttl then None else Some(cache[key].articles)
  }

  /** The provider is asked for the key's own symbol and count, from the key's days before the clock. */
  predicate AsksFor(call: Call, key: Key, at: int) {
    call.symbol == key.symbol && call.limit == key.count && at - call.since == key.days * 24 * 60 * 60 * 1_000_000
  }

  function CallFor(key: Key, now: int): Call { Call(key.symbol, key.count, now - key.days * DAY) }

  /** Inside the lock up to the provider call: a second check, which may release the lock at once. */
  function UnderLock(ttl: int, l: Loader, caller: nat, key: Key, checkedAt: int, startedAt: int): (Loader, Locked) {
    match Fresh(l.cache, key, checkedAt, ttl)
    case Some(articles) => (l, Hit(articles))
    case None => (l.(holder := Some(caller)), Ask(CallFor(key, startedAt)))
  }

  function Stored(l: Loader, key: Key, articles: Articles, now: int): Loader {
    Loader(l.cache[key := Entry(now, articles)], None)
  }

  class NewsLoader {
    const ttl: int
    var cache: map<Key, Entry>
    var holder: Option<nat>

    function State(): Loader
      reads this
    {
      Loader(cache, holder)
    }

    constructor (ttl: int)
      ensures this.ttl == ttl && State() == Loader(map[], None)
    {
      this.ttl := ttl;
      cache, holder := map[], None;
    }

    /** `_fresh`, and so also the check before the lock. */
    method CheckFresh(key: Key, now: int) returns (hit: Option<Articles>)
      ensures hit == Fresh(cache, key, now, ttl)
    {
      if key !in cache {
        return None;
      }
      var entry := cache[key];
      if now - entry.fetchedAt >= ttl {
        return None;
      }
      return Some(entry.articles);
    }

    method EnterLock(caller: nat, key: Key, checkedAt: int, startedAt: int) returns (answer: Locked)
      requires holder.None?
      modifies this
      ensures (State(), answer) == UnderLock(ttl, old(State()), caller, key, checkedAt, startedAt)
      ensures answer.Ask? ==> AsksFor(answer.call, key, startedAt)
    {
      holder := Some(caller);
      var hit := CheckFresh(key, checkedAt);
      if hit.Some? {
        holder := None;
        return Hit(hit.value);
      }
      return Ask(Call(key.symbol, key.count, startedAt - key.days * DAY));
    }

    method StoreAndRelease(key: Key, articles: Articles, now: int)
      requires holder.Some?
      modifies this
      ensures State() == Stored(old(State()), key, articles, now)
    {
      cache := cache[key := Entry(now, articles)];
      holder := None;
    }

    /** The fetch raised: the lock is released and nothing is cached. */
    method ReleaseAfterError()
      requires holder.Some?
      modifies this
      ensures State() == old(State()).(holder := None)
    {
      holder := None;
    }
  }

  // The protocol: any number of callers over one loader.

  datatype Phase = Waiting(key: Key) | Fetching(key: Key, call: Call, startedAt: int)

  datatype Event =
    | Started(key: Key, call: Call, at: int)
    | Completed(caller: nat, key: Key, call: Call, startedAt: int, at: int, articles: Articles)
    | Failed
    | Served(caller: nat, key: Key, at: int, articles: Articles, fetched: bool)

  /** `clock` is the latest time anyone has read; `log` records what happened and influences nothing. */
  datatype System = System(loader: Loader, callers: map<nat, Phase>, clock: int, log: seq<Event>)

  datatype Move =
    | Arrive(caller: nat, key: Key, now: int)
    | Enter(caller: nat, checkedAt: int, startedAt: int)
    | Respond(caller: nat, articles: Articles, now: int)
    | Break(caller: nat)
    | GiveUp(caller: nat)

  const OPENING := System(Loader(map[], None), map[], 0, [])

  predicate Enabled(s: System, m: Move) {
    match m
    case Arrive(caller, key, now) => caller !in s.callers && s.clock <= now
    case Enter(caller, checkedAt, startedAt) =>
      caller in s.callers && s.callers[caller].Waiting? && s.loader.holder.None? && s.clock <= checkedAt <= startedAt
    case Respond(caller, articles, now) => caller in s.callers && s.callers[caller].Fetching? && s.clock <= now
    case Break(caller) => caller in s.callers && s.callers[caller].Fetching?
    case GiveUp(caller) => caller in s.callers && s.callers[caller].Waiting?
  }

  function Apply(ttl: int, s: System, m: Move): System
    requires Enabled(s, m)
  {
    match m
    case Arrive(caller, key, now) =>
      (match Fresh(s.loader.cache, key, now, ttl)
       case Some(articles) => s.(clock := now, log := s.log + [Served(caller, key, now, articles, false)])
       case None => s.(clock := now, callers := s.callers[caller := Waiting(key)]))
    case Enter(caller, checkedAt, startedAt) =>
      var key := s.callers[caller].key;
      var (loader, answer) := UnderLock(ttl, s.loader, caller, key, checkedAt, startedAt);
      (match answer
       case Hit(articles) =>
         System(loader, s.callers - {caller}, checkedAt, s.log + [Served(caller, key, checkedAt, articles, false)])
       case Ask(call) =>
         System(loader, s.callers[caller := Fetching(key, call, startedAt)], startedAt,
                s.log + [Started(key, call, startedAt)]))
    case Respond(caller, articles, now) =>
      var phase := s.callers[caller];
      System(Stored(s.loader, phase.key, articles, now), s.callers - {caller}, now,
             s.log + [Completed(caller, phase.key, phase.call, phase.startedAt, now, articles)]
               + [Served(caller, phase.key, now, articles, true)])
    case Break(caller) =>
      s.(loader := s.loader.(holder := None), callers := s.callers - {caller}, log := s.log + [Failed])
    case GiveUp(caller) => s.(callers := s.callers - {caller})
  }

  predicate Legal(ttl: int, s: System, moves: seq<Move>)
    decreases |moves|
  {
    moves == [] || (Enabled(s, moves[0]) && Legal(ttl, Apply(ttl, s, moves[0]), moves[1..]))
  }

  function Run(ttl: int, s: System, moves: seq<Move>): System
    requires Legal(ttl, s, moves)
    decreases |moves|
  {
    if moves == [] then s else Run(ttl, Apply(ttl, s, moves[0]), moves[1..])
  }

  // What every run keeps.

  /** Fetches begun and not yet ended. */
  function Outstanding(log: seq<Event>): int {
    if log == [] then 0
    else
      var last := log[|log| - 1];
      Outstanding(log[..|log| - 1]) + if last.Started? then 1 else if last.Completed? || last.Failed? then -1 else 0
  }

  /** The lock holder is the one caller that is fetching. */
  ghost predicate Exclusive(s: System) {
    && (forall c: nat :: s.loader.holder == Some(c) <==> c in s.callers && s.callers[c].Fetching?)
    && Outstanding(s.log) == (if s.loader.holder.Some? then 1 else 0)
  }

  /** A completed fetch that asked the provider for exactly this key, looking back from its own start. */
  predicate Answers(e: Event, key: Key) {
    e.Completed? && e.key == key && AsksFor(e.call, key, e.startedAt) && e.startedAt <= e.at
  }

  predicate Backs(e: Event, key: Key, entry: Entry) {
    Answers(e, key) && e.at == entry.fetchedAt && e.articles == entry.articles
  }

  /** The cache holds, for each key, its latest completed fetch. */
  ghost predicate CacheIsLatest(s: System) {
    && (forall k | k in s.loader.cache ::
          s.loader.cache[k].fetchedAt <= s.clock && exists e | e in s.log :: Backs(e, k, s.loader.cache[k]))
    && (forall e | e in s.log && e.Completed? :: e.key in s.loader.cache && e.at <= s.loader.cache[e.key].fetchedAt)
  }

  ghost predicate FetchesWellFormed(s: System) {
    forall c | c in s.callers && s.callers[c].Fetching? ::
      AsksFor(s.callers[c].call, s.callers[c].key, s.callers[c].startedAt) && s.callers[c].startedAt <= s.clock
  }

  /** Every fetch ever started asked for its key's articles. */
  predicate AsksRight(log: seq<Event>) { forall e | e in log && e.Started? :: AsksFor(e.call, e.key, e.at) }

  predicate SpacedPair(ttl: int, earlier: Event, later: Event) {
    earlier.Completed? && later.Started? && earlier.key == later.key ==> later.at - earlier.at >= ttl
  }

  /** No fetch starts less than the TTL after a completed fetch for its key. */
  ghost predicate Spaced(ttl: int, log: seq<Event>) {
    forall i, j | 0 <= i < j < |log| :: SpacedPair(ttl, log[i], log[j])
  }

  predicate JustFetched(d: Event, e: Event)
    requires e.Served?
  {
    Answers(d, e.key) && d.caller == e.caller && d.at == e.at && d.articles == e.articles
  }

  predicate StillFresh(ttl: int, d: Event, e: Event)
    requires e.Served?
  {
    Answers(d, e.key) && d.articles == e.articles && e.at - d.at < ttl
  }

  /** A served value was just fetched by its caller, or came from a fetch for that key younger than the TTL. */
  ghost predicate Justified(ttl: int, log: seq<Event>, j: nat)
    requires j < |log|
  {
    var e := log[j];
    e.Served? ==>
      if e.fetched then j > 0 && JustFetched(log[j - 1], e)
      else exists i :: 0 <= i < j && StillFresh(ttl, log[i], e)
  }

  ghost predicate Inv(ttl: int, s: System) {
    && Exclusive(s) && CacheIsLatest(s) && FetchesWellFormed(s)
    && Spaced(ttl, s.log) && AsksRight(s.log)
    && (forall j | 0 <= j < |s.log| :: Justified(ttl, s.log, j))
  }

  lemma OutstandingSnoc(log: seq<Event>, e: Event)
    ensures Outstanding(log + [e]) == Outstanding(log)
            + if e.Started? then 1 else if e.Completed? || e.Failed? then -1 else 0
  {
    assert (log + [e])[..|log|] == log;
  }

  lemma JustifiedExtends(ttl: int, log: seq<Event>, more: seq<Event>)
    requires forall j | 0 <= j < |log| :: Justified(ttl, log, j)
    ensures forall j | 0 <= j < |log| :: Justified(ttl, log + more, j)
  {
    var all := log + more;
    forall j | 0 <= j < |log|
      ensures Justified(ttl, all, j)
    {
      assert Justified(ttl, log, j) && all[j] == log[j];
      if log[j].Served? && !log[j].fetched {
        var i :| 0 <= i < j && StillFresh(ttl, log[i], log[j]);
        assert all[i] == log[i];
      }
    }
  }

  lemma SpacedExtends(ttl: int, log: seq<Event>, e: Event)
    requires Spaced(ttl, log)
    requires forall d | d in log :: SpacedPair(ttl, d, e)
    ensures Spaced(ttl, log + [e])
  {
    var all := log + [e];
    forall i, j | 0 <= i < j < |all|
      ensures SpacedPair(ttl, all[i], all[j])
    {
      assert all[i] == log[i] && all[i] in log;
      assert j < |log| ==> SpacedPair(ttl, log[i], log[j]);
    }
  }

  /** Serving from the cache what is fresh at `now` is justified by the log. */
  lemma ServeFromCache(ttl: int, s: System, caller: nat, key: Key, now: int)
    requires Inv(ttl, s) && Fresh(s.loader.cache, key, now, ttl).Some?
    ensures var log := s.log + [Served(caller, key, now, Fresh(s.loader.cache, key, now, ttl).value, false)];
            && Spaced(ttl, log) && Outstanding(log) == Outstanding(s.log)
            && forall j | 0 <= j < |log| :: Justified(ttl, log, j)
  {
    var e := Served(caller, key, now, Fresh(s.loader.cache, key, now, ttl).value, false);
    var log := s.log + [e];
    SpacedExtends(ttl, s.log, e);
    OutstandingSnoc(s.log, e);
    JustifiedExtends(ttl, s.log, [e]);
    var d :| d in s.log && Backs(d, key, s.loader.cache[key]);
    var i :| 0 <= i < |s.log| && s.log[i] == d;
    assert log[i] == d && StillFresh(ttl, d, e);
    assert Justified(ttl, log, |s.log|);
  }

  /** The cache is unchanged and the log gains nothing that completes a fetch. */
  lemma CacheStillLatest(s: System, t: System, more: seq<Event>)
    requires CacheIsLatest(s)
    requires t.loader.cache == s.loader.cache && s.clock <= t.clock && t.log == s.log + more
    requires forall e | e in more :: !e.Completed?
    ensures CacheIsLatest(t)
  {
    forall k | k in t.loader.cache
      ensures exists e | e in t.log :: Backs(e, k, t.loader.cache[k])
    {
      var e :| e in s.log && Backs(e, k, s.loader.cache[k]);
      assert e in t.log;
    }
  }

  lemma ArriveKeeps(ttl: int, s: System, caller: nat, key: Key, now: int)
    requires Inv(ttl, s) && Enabled(s, Arrive(caller, key, now))
    ensures Inv(ttl, Apply(ttl, s, Arrive(caller, key, now)))
  {
    var t := Apply(ttl, s, Arrive(caller, key, now));
    match Fresh(s.loader.cache, key, now, ttl)
    case Some(articles) =>
      ServeFromCache(ttl, s, caller, key, now);
      CacheStillLatest(s, t, [Served(caller, key, now, articles, false)]);
    case None =>
      assert t.log == s.log + [];
      CacheStillLatest(s, t, []);
  }

  lemma HitKeeps(ttl: int, s: System, caller: nat, checkedAt: int, startedAt: int)
    requires Inv(ttl, s) && Enabled(s, Enter(caller, checkedAt, startedAt))
    requires Fresh(s.loader.cache, s.callers[caller].key, checkedAt, ttl).Some?
    ensures Inv(ttl, Apply(ttl, s, Enter(caller, checkedAt, startedAt)))
  {
    var t := Apply(ttl, s, Enter(caller, checkedAt, startedAt));
    var key := s.callers[caller].key;
    ServeFromCache(ttl, s, caller, key, checkedAt);
    CacheStillLatest(s, t, [Served(caller, key, checkedAt, Fresh(s.loader.cache, key, checkedAt, ttl).value, false)]);
  }

  lemma AskKeeps(ttl: int, s: System, caller: nat, checkedAt: int, startedAt: int)
    requires Inv(ttl, s) && Enabled(s, Enter(caller, checkedAt, startedAt))
    requires Fresh(s.loader.cache, s.callers[caller].key, checkedAt, ttl).None?
    ensures Inv(ttl, Apply(ttl, s, Enter(caller, checkedAt, startedAt)))
  {
    var t := Apply(ttl, s, Enter(caller, checkedAt, startedAt));
    var key := s.callers[caller].key;
    var e := Started(key, CallFor(key, startedAt), startedAt);
    assert t.log == s.log + [e];
    CacheStillLatest(s, t, [e]);
    OutstandingSnoc(s.log, e);
    JustifiedExtends(ttl, s.log, [e]);
    forall d | d in s.log
      ensures SpacedPair(ttl, d, e)
    {
    }
    SpacedExtends(ttl, s.log, e);
  }

  lemma RespondCaches(ttl: int, s: System, caller: nat, articles: Articles, now: int)
    requires CacheIsLatest(s) && FetchesWellFormed(s) && Enabled(s, Respond(caller, articles, now))
    ensures CacheIsLatest(Apply(ttl, s, Respond(caller, articles, now)))
  {
    var t := Apply(ttl, s, Respond(caller, articles, now));
    var phase := s.callers[caller];
    var done := Completed(caller, phase.key, phase.call, phase.startedAt, now, articles);
    assert done in t.log && Backs(done, phase.key, t.loader.cache[phase.key]);
    forall k | k in t.loader.cache && k != phase.key
      ensures exists e | e in t.log :: Backs(e, k, t.loader.cache[k])
    {
      var e :| e in s.log && Backs(e, k, s.loader.cache[k]);
      assert e in t.log;
    }
  }

  lemma RespondKeeps(ttl: int, s: System, caller: nat, articles: Articles, now: int)
    requires Inv(ttl, s) && Enabled(s, Respond(caller, articles, now))
    ensures Inv(ttl, Apply(ttl, s, Respond(caller, articles, now)))
  {
    hide CacheIsLatest, Outstanding, Justified, Spaced;
    var phase := s.callers[caller];
    var done := Completed(caller, phase.key, phase.call, phase.startedAt, now, articles);
    var served := Served(caller, phase.key, now, articles, true);
    OutstandingSnoc(s.log, done);
    OutstandingSnoc(s.log + [done], served);
    assert AsksFor(phase.call, phase.key, phase.startedAt);
    ServeFetched(ttl, s.log, done, served);
    RespondCaches(ttl, s, caller, articles, now);
    assert (s.log + [done]) + [served] == s.log + [done, served];
  }

  /** A completed fetch, served at once to its own caller, is justified by itself. */
  lemma ServeFetched(ttl: int, log: seq<Event>, done: Event, served: Event)
    requires Spaced(ttl, log) && forall j | 0 <= j < |log| :: Justified(ttl, log, j)
    requires done.Completed? && served.Served? && served.fetched && JustFetched(done, served)
    ensures var all := log + [done] + [served];
            Spaced(ttl, all) && forall j | 0 <= j < |all| :: Justified(ttl, all, j)
  {
    var more := log + [done];
    SpacedExtends(ttl, log, done);
    SpacedExtends(ttl, more, served);
    JustifiedExtends(ttl, log, [done]);
    assert Justified(ttl, more, |log|);
    JustifiedExtends(ttl, more, [served]);
    var all := more + [served];
    assert all[|more|] == served && all[|more| - 1] == done;
    assert Justified(ttl, all, |more|);
  }

  lemma BreakKeeps(ttl: int, s: System, caller: nat)
    requires Inv(ttl, s) && Enabled(s, Break(caller))
    ensures Inv(ttl, Apply(ttl, s, Break(caller)))
  {
    var t := Apply(ttl, s, Break(caller));
    OutstandingSnoc(s.log, Failed);
    SpacedExtends(ttl, s.log, Failed);
    JustifiedExtends(ttl, s.log, [Failed]);
    assert Justified(ttl, t.log, |s.log|);
    CacheStillLatest(s, t, [Failed]);
  }

  lemma GiveUpKeeps(ttl: int, s: System, caller: nat)
    requires Inv(ttl, s) && Enabled(s, GiveUp(caller))
    ensures Inv(ttl, Apply(ttl, s, GiveUp(caller)))
  {
    var t := Apply(ttl, s, GiveUp(caller));
    assert t.log == s.log + [];
    CacheStillLatest(s, t, []);
  }

  /** Every move of every caller keeps the cache protocol. */
  lemma MoveKeeps(ttl: int, s: System, m: Move)
    requires Inv(ttl, s) && Enabled(s, m)
    ensures Inv(ttl, Apply(ttl, s, m))
  {
    match m
    case Arrive(caller, key, now) => ArriveKeeps(ttl, s, caller, key, now);
    case Enter(caller, checkedAt, startedAt) =>
      if Fresh(s.loader.cache, s.callers[caller].key, checkedAt, ttl).Some? {
        HitKeeps(ttl, s, caller, checkedAt, startedAt);
      } else {
        AskKeeps(ttl, s, caller, checkedAt, startedAt);
      }
    case Respond(caller, articles, now) => RespondKeeps(ttl, s, caller, articles, now);
    case Break(caller) => BreakKeeps(ttl, s, caller);
    case GiveUp(caller) => GiveUpKeeps(ttl, s, caller);
  }

  lemma {:induction false} RunKeeps(ttl: int, s: System, moves: seq<Move>)
    requires Inv(ttl, s) && Legal(ttl, s, moves)
    ensures Inv(ttl, Run(ttl, s, moves))
    decreases |moves|
  {
    if moves != [] {
      MoveKeeps(ttl, s, moves[0]);
      RunKeeps(ttl, Apply(ttl, s, moves[0]), moves[1..]);
    }
  }

  lemma {:induction false} RunSplits(ttl: int, s: System, first: seq<Move>, rest: seq<Move>)
    requires Legal(ttl, s, first + rest)
    ensures Legal(ttl, s, first)
    ensures Legal(ttl, Run(ttl, s, first), rest) && Run(ttl, s, first + rest) == Run(ttl, Run(ttl, s, first), rest)
    decreases |first|
  {
    var all := first + rest;
    if first == [] {
      assert all == rest;
    } else {
      assert all[1..] == first[1..] + rest;
      RunSplits(ttl, Apply(ttl, s, first[0]), first[1..], rest);
    }
  }

  /**
   * The protocol, over every interleaving of any number of callers: at no point is more than one fetch
   * outstanding, no fetch starts within the TTL of a completed one for its key, every fetch asks for its key's own
   * articles, and every value served was fetched for exactly its key, either just now by its own caller or less
   * than the TTL before its check.
   */
  lemma EveryInterleavingIsSafe(ttl: int, moves: seq<Move>, cut: nat)
    requires Legal(ttl, OPENING, moves) && cut <= |moves|
    ensures Legal(ttl, OPENING, moves[..cut])
    ensures 0 <= Outstanding(Run(ttl, OPENING, moves[..cut]).log) <= 1
    ensures var log := Run(ttl, OPENING, moves).log;
            Spaced(ttl, log) && AsksRight(log) && forall j | 0 <= j < |log| :: Justified(ttl, log, j)
  {
    assert moves == moves[..cut] + moves[cut..];
    RunSplits(ttl, OPENING, moves[..cut], moves[cut..]);
    RunKeeps(ttl, OPENING, moves[..cut]);
    RunKeeps(ttl, OPENING, moves);
  }

  /**
   * The second check does its job: a caller that waited for the lock behind a fetch for its own key
   * is answered from that fetch, without asking the provider, exactly when it checks within the TTL.
   */
  lemma WaitersShareOneFetch(ttl: int, s: System, fetcher: nat, articles: Articles, now: int, waiter: nat,
    checkedAt: int, startedAt: int)
    requires Inv(ttl, s) && Enabled(s, Respond(fetcher, articles, now)) && now <= checkedAt <= startedAt
    requires waiter in s.callers && s.callers[waiter] == Waiting(s.callers[fetcher].key)
    ensures var t := Apply(ttl, s, Respond(fetcher, articles, now));
            && Enabled(t, Enter(waiter, checkedAt, startedAt))
            && var u := Apply(ttl, t, Enter(waiter, checkedAt, startedAt));
               && (checkedAt - now < ttl <==> u.loader == t.loader && waiter !in u.callers)
               && (checkedAt - now < ttl ==>
                 u.log == t.log + [Served(waiter, s.callers[fetcher].key, checkedAt, articles, false)])
  {
  }
}
