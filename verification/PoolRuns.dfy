/** What holds over any run of the pool (requests, restarts and searches in any order,
    failures anywhere): who is resident, who keeps which wallet, who is told of what,
    and whose history is stored. */
module PoolRuns {
  import opened Recency
  import opened RpcManager
  import opened Sets
  import opened Transfers
  import opened Types
  import opened Wrappers

  lemma RunPrefix(c: Setting, states: seq<State>, events: seq<Event>, outcomes: seq<Outcome>, n: nat)
    requires IsPoolRun(c, states, events, outcomes) && n <= |events|
    ensures IsPoolRun(c, states[..n + 1], events[..n], outcomes[..n])
  {
    hide Happens;
  }

  // ------------------------------------------------ runs: the most recent users are resident

  /** The users served in a run, in order. */
  ghost function Requests(events: seq<Event>): seq<Request> {
    if events == [] then [] else
      var before, last := Requests(events[..|events| - 1]), events[|events| - 1];
      if last.Serve? then before + [last.request] else before
  }

  /** Every request succeeds, and no wallet is restarted. */
  ghost predicate AllServed(events: seq<Event>, outcomes: seq<Outcome>)
    requires |events| == |outcomes|
  {
    forall i :: 0 <= i < |events| ==> !events[i].Restart? && (outcomes[i].Served? ==> outcomes[i].result.Ok?)
  }

  /** From an empty pool, if every request succeeds, stamps are those of the plain rule. */
  lemma {:induction false} ServedPool(c: Setting, states: seq<State>, events: seq<Event>, outcomes: seq<Outcome>)
    requires IsPoolRun(c, states, events, outcomes) && states[0].entries == map[] && AllServed(events, outcomes)
    ensures StampsOf(states[|events|].entries) == Pool(Requests(events), c.limit)
  {
    if events == [] {
      assert StampsOf(states[0].entries).Keys == {};
    } else {
      var n := |events| - 1;
      RunPrefix(c, states, events, outcomes, n);
      ServedPool(c, states[..n + 1], events[..n], outcomes[..n]);
      assert Happens(states[n], states[n + 1], events[n], outcomes[n], c.start, c.limit, c.bot);
      if events[n].Serve? {
        var requests := Requests(events[..n]);
        assert (requests + [events[n].request])[..|requests|] == requests;
      } else {
        SearchKeepsStamps(states[n], states[n + 1], events[n].polls, outcomes[n], c.bot);
      }
    }
  }

  lemma SearchKeepsStamps(was: State, now: State, polls: Polls, o: Outcome, bot: DiscordID)
    requires o.Searched? && SearchedFrom(was, now, polls, o, bot)
    ensures StampsOf(now.entries) == StampsOf(was.entries)
  {
    forall k | k in was.entries ensures now.entries[k].timestamp == was.entries[k].timestamp {
      SearchKeepsUser(was, now, polls, o, bot, k);
    }
    hide SearchedUser;
  }

  /** From an empty pool, over any run of successful requests with searches in between,
      the residents are exactly the most recently requested distinct users. */
  lemma ResidentsAreMostRecent(c: Setting, states: seq<State>, events: seq<Event>, outcomes: seq<Outcome>)
    requires IsPoolRun(c, states, events, outcomes) && states[0].entries == map[] && AllServed(events, outcomes)
    requires ClockRuns(Requests(events))
    ensures forall k :: k in states[|events|].entries <==> AmongMostRecent(Requests(events), c.limit, k)
  {
    ServedPool(c, states, events, outcomes);
    PoolIsLeastRecentlyUsed(Requests(events), c.limit);
    assert forall k :: k in states[|events|].entries <==> k in StampsOf(states[|events|].entries);
  }

  /** Under a clock that never runs backwards stamps lie in the past: whoever is served
      later than all before gets the latest one. */
  lemma {:induction false} StampsFollowTheClock(c: Setting, states: seq<State>, events: seq<Event>,
                                                outcomes: seq<Outcome>, t: int, k: DiscordID)
    requires IsPoolRun(c, states, events, outcomes) && k in states[|events|].entries
    requires forall j :: j in states[0].entries ==> states[0].entries[j].timestamp <= t
    requires forall i :: 0 <= i < |events| && events[i].Serve? ==>
                           events[i].request.launchTime <= events[i].request.now <= t
    ensures states[|events|].entries[k].timestamp <= t
  {
    if events != [] {
      var n := |events| - 1;
      RunPrefix(c, states, events, outcomes, n);
      forall j | j in states[n].entries ensures states[n].entries[j].timestamp <= t {
        StampsFollowTheClock(c, states[..n + 1], events[..n], outcomes[..n], t, j);
      }
      assert Happens(states[n], states[n + 1], events[n], outcomes[n], c.start, c.limit, c.bot);
      StepFollowsTheClock(c, states[n], states[n + 1], events[n], outcomes[n], t, k);
    }
  }

  lemma StepFollowsTheClock(c: Setting, was: State, now: State, e: Event, o: Outcome, t: int, k: DiscordID)
    requires 0 < c.limit && Happens(was, now, e, o, c.start, c.limit, c.bot) && k in now.entries
    requires forall j :: j in was.entries ==> was.entries[j].timestamp <= t
    requires e.Serve? ==> e.request.launchTime <= e.request.now <= t
    ensures now.entries[k].timestamp <= t
  {
    match e
    case Serve(r, _) =>
      assert k in StampsOf(now.entries) && StampsOf(now.entries)[k] == now.entries[k].timestamp;
      if k == r.id {
        StampsStayBelow(StampsOf(was.entries), StampsOf(now.entries), c.limit, r, t, k);
      }
    case Restart(_, _, _) =>
    case Search(polls) =>
      SearchKeepsUser(was, now, polls, o, c.bot, k);
  }

  lemma StampsStayBelow(stamps: Stamps, after: Stamps, limit: nat, r: Request, t: int, k: DiscordID)
    requires 0 < limit && MayBecome(stamps, after, limit, r.id, r.launchTime, r.now) && k in after
    requires (forall j :: j in stamps ==> stamps[j] <= t) && r.launchTime <= r.now <= t
    ensures after[k] <= t
  {
  }

  // ------------------------------------------------ runs: a wallet stays with its owner

  /** The event serves or restarts the user. */
  predicate Concerns(e: Event, k: DiscordID) {
    match e
    case Serve(r, _) => r.id == k
    case Restart(id, _, _) => id == k
    case Search(_) => false
  }

  /** A later poll may have changed the history, and nothing else. */
  ghost predicate SameButHistory(was: State, now: State, k: DiscordID) {
    k in was.entries && k in now.entries &&
    now.entries[k] == was.entries[k].(transactions := now.entries[k].transactions)
  }

  lemma StepKeepsOwner(c: Setting, was: State, now: State, e: Event, o: Outcome, k: DiscordID)
    requires 0 < c.limit && Happens(was, now, e, o, c.start, c.limit, c.bot) && !Concerns(e, k) && k in now.entries
    ensures was.launched <= now.launched && SameButHistory(was, now, k)
    ensures c.start + now.launched <= PORTS ==>
              WalletOn(now.host, now.entries[k].port) == WalletOn(was.host, was.entries[k].port)
  {
    if e.Search? && k in o.polled {
      assert SearchedUser(was.entries[k], now.entries[k], e.polls(k), k, o.reports);
    }
  }

  /** From i to j the user stays in the pool and events concern only others. */
  ghost predicate LeftAlone(states: seq<State>, events: seq<Event>, k: DiscordID, i: nat, j: nat)
    requires i <= j <= |events| < |states|
  {
    && (forall m :: i <= m < j ==> !Concerns(events[m], k))
    && (forall m :: i < m <= j ==> k in states[m].entries)
  }

  /** A resident keeps the process, with the wallet that is open in it, for as long as the
      entry stays and events concern only others, until the port counter wraps:
      through evictions, half-opened entries and restarts of others, and searches. */
  lemma {:induction false} WalletLasts(c: Setting, states: seq<State>, events: seq<Event>, outcomes: seq<Outcome>,
                                       k: DiscordID, i: nat, j: nat)
    requires IsPoolRun(c, states, events, outcomes) && i <= j <= |events| && k in states[i].entries
    requires LeftAlone(states, events, k, i, j)
    requires c.start + states[j].launched <= PORTS
    ensures SameButHistory(states[i], states[j], k)
    ensures WalletOn(states[j].host, states[j].entries[k].port) == WalletOn(states[i].host, states[i].entries[k].port)
    decreases j
  {
    hide Happens, Concerns;
    if i < j {
      var m := j - 1;
      AloneBefore(states, events, k, i, j);
      hide LeftAlone;
      StepKeepsOwner(c, states[m], states[m + 1], events[m], outcomes[m], k);
      WalletLasts(c, states, events, outcomes, k, i, m);
    }
  }

  lemma AloneBefore(states: seq<State>, events: seq<Event>, k: DiscordID, i: nat, j: nat)
    requires i < j <= |events| < |states| && k in states[i].entries && LeftAlone(states, events, k, i, j)
    ensures LeftAlone(states, events, k, i, j - 1)
    ensures !Concerns(events[j - 1], k) && k in states[j - 1].entries && k in states[j].entries
  {
    hide Concerns;
  }

  /** So a user who has the own wallet open keeps it. */
  lemma OwnershipLasts(c: Setting, states: seq<State>, events: seq<Event>, outcomes: seq<Outcome>,
                       k: DiscordID, i: nat, j: nat)
    requires IsPoolRun(c, states, events, outcomes) && i <= j <= |events| && states[i].Owns(k)
    requires LeftAlone(states, events, k, i, j)
    requires c.start + states[j].launched <= PORTS
    ensures states[j].Owns(k) && SameButHistory(states[i], states[j], k)
  {
    hide IsPoolRun, LeftAlone;
    WalletLasts(c, states, events, outcomes, k, i, j);
  }

  /** The users served in a run. */
  ghost function Guests(events: seq<Event>): set<DiscordID> {
    if events == [] then {} else
      var before, last := Guests(events[..|events| - 1]), events[|events| - 1];
      if last.Serve? then before + {last.request.id} else before
  }

  lemma StepKeepsShelter(c: Setting, was: State, now: State, e: Event, o: Outcome, s: DiscordID, others: set<DiscordID>)
    requires 0 < c.limit && Happens(was, now, e, o, c.start, c.limit, c.bot) && !Concerns(e, s)
    requires |was.entries| <= c.limit && Sheltered(StampsOf(was.entries), s, others)
    requires e.Serve? ==> |others + {e.request.id}| < c.limit
    ensures Sheltered(StampsOf(now.entries), s, if e.Serve? then others + {e.request.id} else others)
    ensures s in now.entries && |now.entries| <= c.limit
  {
    hide StampsOf, MayBecome, Touch;
    match e
    case Serve(r, _) =>
      hide Sheltered;
      ShelteredStays(StampsOf(was.entries), StampsOf(now.entries), c.limit, r, s, others);
      ShelteredIsResident(now, s, others + {r.id});
    case Restart(id, _, _) =>
      RestartKeepsShelter(was, now, id, s, others);
    case Search(polls) =>
      SearchKeepsStamps(was, now, polls, o, c.bot);
      ShelteredIsResident(now, s, others);
  }

  lemma ShelteredIsResident(now: State, s: DiscordID, others: set<DiscordID>)
    requires Sheltered(StampsOf(now.entries), s, others)
    ensures s in now.entries
  {
  }

  lemma RestartKeepsShelter(was: State, now: State, id: DiscordID, s: DiscordID, others: set<DiscordID>)
    requires if id !in was.entries then now == was else
               OnlyEntryChanged(was, now, id) &&
               (id in now.entries ==> now.entries[id].timestamp == was.entries[id].timestamp)
    requires id != s && Sheltered(StampsOf(was.entries), s, others)
    ensures Sheltered(StampsOf(now.entries), s, others) && s in now.entries && |now.entries| <= |was.entries|
  {
    if id in was.entries {
      assert s in was.entries;
      ChangeOfStamps(was, now, id);
    }
  }

  /** Nobody else has a stamp as late as that of the user. */
  ghost predicate IsLatest(state: State, s: DiscordID) {
    s in state.entries &&
    forall k :: k in state.entries && k != s ==> state.entries[k].timestamp < state.entries[s].timestamp
  }

  lemma {:induction false} LatestStays(c: Setting, states: seq<State>, events: seq<Event>, outcomes: seq<Outcome>,
                                       s: DiscordID)
    requires IsPoolRun(c, states, events, outcomes) && |states[0].entries| <= c.limit && IsLatest(states[0], s)
    requires (forall m :: 0 <= m < |events| ==> !Concerns(events[m], s)) && |Guests(events)| < c.limit
    ensures Sheltered(StampsOf(states[|events|].entries), s, Guests(events))
    ensures |states[|events|].entries| <= c.limit && s in states[|events|].entries
  {
    if events != [] {
      var n := |events| - 1;
      RunPrefix(c, states, events, outcomes, n);
      SubsetSize(Guests(events[..n]), Guests(events));
      LatestStays(c, states[..n + 1], events[..n], outcomes[..n], s);
      hide Happens, Sheltered, StampsOf;
      StepKeepsShelter(c, states[n], states[n + 1], events[n], outcomes[n], s, Guests(events[..n]));
    }
  }

  lemma {:induction false} LatestIsPresent(c: Setting, states: seq<State>, events: seq<Event>, outcomes: seq<Outcome>,
                                           s: DiscordID, m: nat)
    requires IsPoolRun(c, states, events, outcomes) && |states[0].entries| <= c.limit && IsLatest(states[0], s)
    requires (forall i :: 0 <= i < |events| ==> !Concerns(events[i], s)) && |Guests(events)| < c.limit
    requires m <= |events|
    ensures s in states[m].entries
  {
    if m == |events| {
      LatestStays(c, states, events, outcomes, s);
    } else {
      var n := |events| - 1;
      RunPrefix(c, states, events, outcomes, n);
      SubsetSize(Guests(events[..n]), Guests(events));
      hide IsPoolRun, IsLatest;
      LatestIsPresent(c, states[..n + 1], events[..n], outcomes[..n], s, m);
    }
  }

  /** The user served last is not evicted while fewer distinct others than the limit
      are served, whatever fails and whoever else is restarted, and keeps its wallet. */
  lemma LatestKeepsItsWallet(c: Setting, states: seq<State>, events: seq<Event>, outcomes: seq<Outcome>, s: DiscordID)
    requires IsPoolRun(c, states, events, outcomes) && |states[0].entries| <= c.limit
    requires states[0].Owns(s) && IsLatest(states[0], s)
    requires (forall m :: 0 <= m < |events| ==> !Concerns(events[m], s)) && |Guests(events)| < c.limit
    requires c.start + states[|events|].launched <= PORTS
    ensures states[|events|].Owns(s) && SameButHistory(states[0], states[|events|], s)
  {
    forall m | 0 <= m <= |events| ensures s in states[m].entries {
      LatestIsPresent(c, states, events, outcomes, s, m);
    }
    assert LeftAlone(states, events, s, 0, |events|);
    hide LeftAlone, IsPoolRun;
    OwnershipLasts(c, states, events, outcomes, s, 0, |events|);
  }

  // ------------------------------------------------ runs: who must be set up anew

  /** The process of a resident has the wallet of someone else open. */
  ghost predicate OnForeignWallet(was: State, k: DiscordID) {
    k in was.entries &&
    var wallet := WalletOn(was.host, was.entries[k].port);
    wallet.Some? && wallet != Some(k)
  }

  /** A resident is dropped for a foreign wallet: nobody kills the process. */
  ghost predicate LeavesProcess(was: State, e: Event) {
    e.Serve? && e.request.id in was.entries && e.replies.addressAnswers && OnForeignWallet(was, e.request.id)
  }

  /** A request drops the user's entry: the own wallet is not the one that answers, or
      nothing ever answers. */
  ghost predicate DropsEntry(was: State, e: Event) {
    LeavesProcess(was, e) ||
    (e.Serve? && e.request.id !in was.entries && e.replies.waiting == NeverResponds(false) && e.request.id != 0)
  }

  /** A request of a resident costs the entry exactly if the address comes from a foreign
      wallet, and stamps it exactly if it comes from the own one, even if the balances
      do not come after that. */
  lemma ResidentIsStampedOrDropped(c: Setting, was: State, now: State, r: Request, replies: Replies, o: Outcome)
    requires 0 < c.limit && Happens(was, now, Serve(r, replies), o, c.start, c.limit, c.bot) && r.id in was.entries
    ensures r.id !in now.entries <==> replies.addressAnswers && OnForeignWallet(was, r.id)
    ensures r.id in now.entries ==>
              && now.entries[r.id].timestamp ==
                 (if replies.addressAnswers && was.Owns(r.id) then r.now else was.entries[r.id].timestamp)
              && WalletOn(now.host, now.entries[r.id].port) == WalletOn(was.host, was.entries[r.id].port)
    ensures o.result.Ok? <==> was.Owns(r.id) && replies.addressAnswers && replies.resync.Synced?
  {
    StampOfEntry(now, r.id);
    StampOfEntry(was, r.id);
    hide OthersKept, StampsOf, MayBecome;
  }

  lemma StampOfEntry(s: State, k: DiscordID)
    ensures k in StampsOf(s.entries) <==> k in s.entries
    ensures k in s.entries ==> StampsOf(s.entries)[k] == s.entries[k].timestamp
  {
  }

  /** A request of a new user leaves an entry behind unless its process was killed for
      never answering, and stamps it exactly if the setup and the address succeed. */
  lemma NewcomerIsStampedOrDropped(c: Setting, was: State, now: State, r: Request, replies: Replies, o: Outcome)
    requires 0 < c.limit && Happens(was, now, Serve(r, replies), o, c.start, c.limit, c.bot) && r.id !in was.entries
    ensures r.id !in now.entries <==> replies.waiting == NeverResponds(false) && r.id != 0
    ensures replies.addressAnswers && replies.transfers.Some? && replies.open.OpenSucceeds? &&
            !replies.waiting.NeverResponds? ==>
              r.id in now.entries && now.entries[r.id].timestamp == r.now
    ensures r.id in now.entries && !replies.waiting.NeverResponds? ==>
              WalletOn(now.host, now.entries[r.id].port) ==
              if replies.open.OpenFails? then replies.open.leavesOpen else Some(r.id)
    ensures o.result.Ok? <==>
            && !replies.waiting.NeverResponds? && replies.open.OpenSucceeds? && replies.transfers.Some?
            && replies.addressAnswers && replies.resync.Synced?
  {
    StampOfEntry(now, r.id);
    hide OthersKept, StampsOf, MayBecome;
  }

  /** A new user finds a full pool: the oldest entry goes, nobody else's, and its process,
      not restarted, is what the user gets, with the old stamp until it is served. */
  lemma NewcomerTakesOver(c: Setting, was: State, now: State, r: Request, replies: Replies, o: Outcome, k: DiscordID)
    requires 0 < c.limit == |was.entries| && r.id !in was.entries && k in was.entries
    requires Happens(was, now, Serve(r, replies), o, c.start, c.limit, c.bot)
    requires forall j :: j in was.entries && j != k ==>
                           was.entries[k].timestamp < was.entries[j].timestamp ||
                           (was.entries[k].timestamp == was.entries[j].timestamp && k < j)
    ensures k !in now.entries && now.entries.Keys - {r.id} == was.entries.Keys - {k}
    ensures now.launched == was.launched
    ensures r.id in now.entries ==>
              && now.entries[r.id].port == was.entries[k].port
              && now.entries[r.id].timestamp ==
                 if SetsUp(replies) && replies.addressAnswers then r.now else was.entries[k].timestamp
  {
    var stamps, after := StampsOf(was.entries), StampsOf(now.entries);
    OldestUnique(stamps, k);
    StampsTakeOver(stamps, FateOf(was, r.id, replies), c.limit, r.id, r.launchTime, r.now, k);
    assert stamps.Keys == was.entries.Keys && after.Keys == now.entries.Keys;
    StampOfEntry(now, r.id);
    StampOfEntry(was, k);
    hide OthersKept, StampsOf, MayBecome, IsOldest, StampsAfter, Touch, HistoryAfter, WalletAfter;
  }

  lemma StampsTakeOver(stamps: Stamps, fate: Fate, limit: nat, id: DiscordID, launchTime: int, t: int, k: DiscordID)
    requires 0 < limit == |stamps| && id !in stamps && k in stamps && k == Oldest(stamps)
    ensures var after := StampsAfter(fate, stamps, limit, id, launchTime, t);
            && after.Keys - {id} == stamps.Keys - {k}
            && (id in after ==> after[id] == if fate.Stamped? then t else stamps[k])
  {
    hide IsOldest;
  }

  lemma StampsFindRoom(stamps: Stamps, fate: Fate, limit: nat, id: DiscordID, launchTime: int, t: int)
    requires |stamps| < limit && id !in stamps
    ensures var after := StampsAfter(fate, stamps, limit, id, launchTime, t);
            && after.Keys - {id} == stamps.Keys
            && (id in after ==> after[id] == if fate.Stamped? then t else launchTime)
  {
  }

  /** Where there is room nobody goes, and the user gets a new process on the next port. */
  lemma NewcomerFindsRoom(c: Setting, was: State, now: State, r: Request, replies: Replies, o: Outcome)
    requires |was.entries| < c.limit && r.id !in was.entries
    requires Happens(was, now, Serve(r, replies), o, c.start, c.limit, c.bot)
    ensures now.entries.Keys - {r.id} == was.entries.Keys && now.launched == was.launched + 1
    ensures r.id in now.entries ==>
              && now.entries[r.id].port == PortNumber(c.start + was.launched)
              && now.entries[r.id].timestamp ==
                 if SetsUp(replies) && replies.addressAnswers then r.now else r.launchTime
  {
    var stamps, after := StampsOf(was.entries), StampsOf(now.entries);
    StampsFindRoom(stamps, FateOf(was, r.id, replies), c.limit, r.id, r.launchTime, r.now);
    assert stamps.Keys == was.entries.Keys && after.Keys == now.entries.Keys;
    StampOfEntry(now, r.id);
    hide OthersKept, StampsOf, MayBecome, StampsAfter, Touch, HistoryAfter, WalletAfter;
  }

  /** The event costs the user it is about the entry. */
  ghost predicate Costs(was: State, e: Event) {
    DropsEntry(was, e) ||
    (e.Restart? && e.id in was.entries && e.replies.waiting == NeverResponds(false) && e.id != 0)
  }

  ghost function NumberCosting(states: seq<State>, events: seq<Event>): nat
    requires |states| == |events| + 1
  {
    if events == [] then 0 else
      var n := |events| - 1;
      NumberCosting(states[..n + 1], events[..n]) + if Costs(states[n], events[n]) then 1 else 0
  }

  lemma StepLaunches(c: Setting, was: State, now: State, e: Event, o: Outcome)
    requires 0 < c.limit && |was.entries| <= c.limit && Happens(was, now, e, o, c.start, c.limit, c.bot)
    ensures |now.entries| + (if Costs(was, e) then 1 else 0) == |was.entries| + (now.launched - was.launched)
    ensures |now.entries| <= c.limit
  {
    match e
    case Serve(r, replies) =>
      ServeLaunches(c, was, now, r, replies, o);
    case Restart(id, _, replies) =>
      hide OthersKept, SetsUp;
      if id in was.entries {
        ChangeOfSize(was, now, id);
      }
    case Search(polls) =>
      SearchKeepsKeys(was, now, polls, o, c.bot);
  }

  lemma ChangeOfSize(was: State, now: State, id: DiscordID)
    requires OnlyEntryChanged(was, now, id)
    ensures |now.entries| == if id in now.entries then |was.entries| else |was.entries| - 1
  {
    assert |was.entries| == |was.entries.Keys| && |now.entries| == |now.entries.Keys|;
    assert now.entries.Keys == if id in now.entries then was.entries.Keys else was.entries.Keys - {id};
  }

  lemma ServeLaunches(c: Setting, was: State, now: State, r: Request, replies: Replies, o: Outcome)
    requires 0 < c.limit && |was.entries| <= c.limit
    requires Happens(was, now, Serve(r, replies), o, c.start, c.limit, c.bot)
    ensures var e := Serve(r, replies);
            |now.entries| + (if Costs(was, e) then 1 else 0) == |was.entries| + (now.launched - was.launched)
    ensures |now.entries| <= c.limit
  {
    var admitted := Recency.Admit(StampsOf(was.entries), c.limit, r.id, r.launchTime);
    assert |now.entries| == |StampsOf(now.entries)|;
    if r.id in was.entries {
      ResidentIsStampedOrDropped(c, was, now, r, replies, o);
    } else {
      NewcomerIsStampedOrDropped(c, was, now, r, replies, o);
    }
    Restamped(admitted, r.id, r.now);
    hide OthersKept, StampsOf, MayBecome, Recency.Admit, SetsUp;
  }

  lemma Restamped(stamps: Stamps, id: DiscordID, t: int)
    requires id in stamps
    ensures |stamps[id := t]| == |stamps| && |stamps - {id}| == |stamps| - 1
  {
    assert stamps[id := t].Keys == stamps.Keys && (stamps - {id}).Keys == stamps.Keys - {id};
  }

  /** Over any run processes are launched only to make the pool grow or to replace an
      entry that was lost: with n losses no more than limit + n of them. */
  lemma {:induction false} LaunchesAreEntriesAndLosses(c: Setting, states: seq<State>, events: seq<Event>,
                                                       outcomes: seq<Outcome>)
    requires IsPoolRun(c, states, events, outcomes) && |states[0].entries| <= c.limit
    ensures |states[|events|].entries| <= c.limit
    ensures |states[|events|].entries| + NumberCosting(states, events) ==
            |states[0].entries| + (states[|events|].launched - states[0].launched)
  {
    if events != [] {
      var n := |events| - 1;
      RunPrefix(c, states, events, outcomes, n);
      LaunchesAreEntriesAndLosses(c, states[..n + 1], events[..n], outcomes[..n]);
      assert Happens(states[n], states[n + 1], events[n], outcomes[n], c.start, c.limit, c.bot);
      hide Happens, Costs;
      StepLaunches(c, states[n], states[n + 1], events[n], outcomes[n]);
    }
  }

  /** Only a request of its own brings a user back into the pool. */
  lemma {:induction false} StaysOut(c: Setting, states: seq<State>, events: seq<Event>, outcomes: seq<Outcome>,
                                    k: DiscordID, i: nat, j: nat)
    requires IsPoolRun(c, states, events, outcomes) && i <= j <= |events| && k !in states[i].entries
    requires forall m :: i <= m < j && events[m].Serve? ==> events[m].request.id != k
    ensures k !in states[j].entries
    decreases j
  {
    if i < j {
      StaysOut(c, states, events, outcomes, k, i, j - 1);
      assert Happens(states[j - 1], states[j], events[j - 1], outcomes[j - 1], c.start, c.limit, c.bot);
    }
  }

  /** A user whose entry a request drops is set up anew by its next one, whatever happens
      in between: that one is served exactly if a process answers it, opens the
      wallet, and gives the transfers, the address and the balances. */
  lemma DroppedIsSetUpAnew(c: Setting, states: seq<State>, events: seq<Event>, outcomes: seq<Outcome>, i: nat, j: nat)
    requires IsPoolRun(c, states, events, outcomes) && i < j < |events|
    requires DropsEntry(states[i], events[i]) && events[j].Serve? && events[j].request.id == events[i].request.id
    requires forall m :: i < m < j && events[m].Serve? ==> events[m].request.id != events[i].request.id
    ensures outcomes[i].Served? && outcomes[i].result.Thrown?
    ensures var replies := events[j].replies;
            outcomes[j].Served? &&
            (outcomes[j].result.Ok? <==>
             && !replies.waiting.NeverResponds? && replies.open.OpenSucceeds? && replies.transfers.Some?
             && replies.addressAnswers && replies.resync.Synced?)
  {
    var k := events[i].request.id;
    assert Happens(states[i], states[i + 1], events[i], outcomes[i], c.start, c.limit, c.bot);
    assert Happens(states[j], states[j + 1], events[j], outcomes[j], c.start, c.limit, c.bot);
    if k in states[i].entries {
      ResidentIsStampedOrDropped(c, states[i], states[i + 1], events[i].request, events[i].replies, outcomes[i]);
    } else {
      NewcomerIsStampedOrDropped(c, states[i], states[i + 1], events[i].request, events[i].replies, outcomes[i]);
    }
    StaysOut(c, states, events, outcomes, k, i + 1, j);
    NewcomerIsStampedOrDropped(c, states[j], states[j + 1], events[j].request, events[j].replies, outcomes[j]);
  }

  /** A new user whose wallet does not open stays in the pool with whatever the process has
      open. While it stays there, its next request is served exactly if that is its
      own wallet, and costs the entry if it is someone else's. */
  lemma HalfOpenedIsServedIff(c: Setting, states: seq<State>, events: seq<Event>, outcomes: seq<Outcome>,
                              i: nat, j: nat)
    requires IsPoolRun(c, states, events, outcomes) && i < j < |events|
    requires events[i].Serve? && events[i].request.id !in states[i].entries
    requires !events[i].replies.waiting.NeverResponds? && events[i].replies.open.OpenFails?
    requires events[j].Serve? && events[j].request.id == events[i].request.id
    requires var k := events[i].request.id;
             k in states[i + 1].entries && LeftAlone(states, events, k, i + 1, j)
    requires c.start + states[j].launched <= PORTS
    ensures outcomes[i].Served? && outcomes[i].result.Thrown? && outcomes[j].Served?
    ensures var k, left, replies := events[i].request.id, events[i].replies.open.leavesOpen, events[j].replies;
            && (outcomes[j].result.Ok? <==> left == Some(k) && replies.addressAnswers && replies.resync.Synced?)
            && (k !in states[j + 1].entries <==> left.Some? && left != Some(k) && replies.addressAnswers)
  {
    var k := events[i].request.id;
    assert Happens(states[i], states[i + 1], events[i], outcomes[i], c.start, c.limit, c.bot);
    assert Happens(states[j], states[j + 1], events[j], outcomes[j], c.start, c.limit, c.bot);
    NewcomerIsStampedOrDropped(c, states[i], states[i + 1], events[i].request, events[i].replies, outcomes[i]);
    hide Happens, LeftAlone;
    WalletLasts(c, states, events, outcomes, k, i + 1, j);
    ResidentIsStampedOrDropped(c, states[j], states[j + 1], events[j].request, events[j].replies, outcomes[j]);
  }

  /** A restart costs a resident the entry exactly if the new process never answers and is
      killed, and otherwise leaves open in it what the setup opened; a kill that fails
      leaves the old process there. */
  lemma RestartLeaves(c: Setting, was: State, now: State, id: DiscordID, killed: bool, replies: Replies, o: Outcome)
    requires 0 < c.limit && Happens(was, now, Restart(id, killed, replies), o, c.start, c.limit, c.bot)
    requires id in was.entries
    ensures id !in now.entries <==> replies.waiting == NeverResponds(false) && id != 0
    ensures id in now.entries ==>
              && now.entries[id].timestamp == was.entries[id].timestamp
              && WalletOn(now.host, now.entries[id].port) ==
                 (if !replies.waiting.NeverResponds? then
                    (if replies.open.OpenFails? then replies.open.leavesOpen else Some(id))
                  else if killed then None else WalletOn(was.host, was.entries[id].port))
  {
    hide OthersKept, OnlyEntryChanged;
  }

  // ------------------------------------------------ runs: how many processes there are

  /** Every entry has a process on a port of its own, and none has a port not yet given out. */
  ghost predicate Housed(entries: Entries, ports: set<nat>, start: nat, next: nat) {
    && PortsDistinct(entries, start, next)
    && (forall k :: k in entries ==> entries[k].port in ports)
    && (forall p :: p in ports ==> start <= p < next)
  }

  ghost predicate AllHoused(c: Setting, s: State) {
    Housed(s.entries, s.host.Keys, c.start, c.start + s.launched)
  }

  ghost function NumberLeft(states: seq<State>, events: seq<Event>): nat
    requires |states| == |events| + 1
  {
    if events == [] then 0 else
      var n := |events| - 1;
      NumberLeft(states[..n + 1], events[..n]) + if LeavesProcess(states[n], events[n]) then 1 else 0
  }

  lemma ProcessCount(before: set<nat>, after: set<nat>, port: nat, dies: bool)
    requires port in before && ProcessesKept(before, after, port, dies)
    ensures after == (if dies then before - {port} else before)
    ensures |after| == |before| - (if dies then 1 else 0)
  {
    if !dies {
      assert after == before;
    }
  }

  /** Between was and now only the user's own entry is new, if there is one. */
  ghost predicate OnlyNew(was: Entries, now: Entries, id: DiscordID, port: nat) {
    && (forall k :: k in now && k != id ==> k in was && now[k] == was[k])
    && (id in now ==> now[id].port == port)
  }

  /** A process on the next port. */
  lemma RoomHoused(was: Entries, ports: set<nat>, now: Entries, after: set<nat>, start: nat, next: nat,
                   id: DiscordID, dies: bool)
    requires Housed(was, ports, start, next) && PortsDistinct(now, start, next + 1) && start <= next
    requires OnlyNew(was, now, id, next) && (dies ==> id !in now)
    requires ProcessesKept(ports + {next}, after, next, dies)
    ensures Housed(now, after, start, next + 1) && |after| == |ports| + 1 - (if dies then 1 else 0)
  {
    ProcessCount(ports + {next}, after, next, dies);
    hide ProcessesKept, PortsDistinct;
    forall k | k in now ensures now[k].port in after {
      if k != id {
        assert was[k].port in ports;
      }
    }
  }

  /** A process that an entry, gone or not, already had. */
  lemma StillHoused(was: Entries, ports: set<nat>, now: Entries, after: set<nat>, start: nat, next: nat,
                    id: DiscordID, gone: DiscordID, dies: bool)
    requires Housed(was, ports, start, next) && PortsDistinct(now, start, next)
    requires gone in was && OnlyNew(was, now, id, was[gone].port) && (dies ==> id !in now)
    requires gone != id ==> gone !in now
    requires ProcessesKept(ports, after, was[gone].port, dies)
    ensures Housed(now, after, start, next) && |after| == |ports| - (if dies then 1 else 0)
  {
    ProcessCount(ports, after, was[gone].port, dies);
    forall k | k in now ensures now[k].port in after {
      if k != id {
        assert was[k].port in ports && was[k].port != was[gone].port;
      }
    }
    hide ProcessesKept, PortsDistinct;
  }

  /** What a request tells about entries, ports and processes. */
  ghost predicate Moves(c: Setting, was: State, now: State, id: DiscordID, replies: Replies) {
    && (was.PortsHold(c.start) ==> now.PortsHold(c.start))
    && now.launched == was.launched + Launches(was, id, c.limit)
    && ProcessesServed(was, now.host, id, replies, c.start, c.limit)
    && OnlyNew(was.entries, now.entries, id, PortAfter(was, id, c.start, c.limit))
    && (id !in was.entries && Dies(id, replies) ==> id !in now.entries)
    && (id !in was.entries && |was.entries| == c.limit > 0 ==> Oldest(StampsOf(was.entries)) !in now.entries)
  }

  lemma ServeMoves(c: Setting, was: State, now: State, r: Request, replies: Replies, o: Outcome)
    requires 0 < c.limit && Happens(was, now, Serve(r, replies), o, c.start, c.limit, c.bot)
    ensures Moves(c, was, now, r.id, replies)
  {
    ServeFacts(c, was, now, r, replies, o);
    hide Happens, State.PortsHold, StampsOf, ProcessesServed, PortAfter, Dies, OnlyNew, Launches;
    if r.id !in was.entries {
      DeadIsGone(c, was, now, r, replies, o);
      if |was.entries| == c.limit {
        OldestIsOldest(was, Oldest(StampsOf(was.entries)));
        NewcomerTakesOver(c, was, now, r, replies, o, Oldest(StampsOf(was.entries)));
      }
    }
  }

  lemma ServeFacts(c: Setting, was: State, now: State, r: Request, replies: Replies, o: Outcome)
    requires 0 < c.limit && Happens(was, now, Serve(r, replies), o, c.start, c.limit, c.bot)
    ensures was.PortsHold(c.start) ==> now.PortsHold(c.start)
    ensures now.launched == was.launched + Launches(was, r.id, c.limit)
    ensures ProcessesServed(was, now.host, r.id, replies, c.start, c.limit)
    ensures OnlyNew(was.entries, now.entries, r.id, PortAfter(was, r.id, c.start, c.limit))
  {
    hide State.PortsHold, StampsOf, MayBecome, HistoryAfter, WalletAfter, StampsAfter, ProcessesServed, PortAfter,
      Launches, FateOf, Touch, State.Serves, State.Owns;
  }

  lemma DeadIsGone(c: Setting, was: State, now: State, r: Request, replies: Replies, o: Outcome)
    requires 0 < c.limit && Happens(was, now, Serve(r, replies), o, c.start, c.limit, c.bot) && r.id !in was.entries
    ensures Dies(r.id, replies) ==> r.id !in now.entries
  {
    hide Happens;
    NewcomerIsStampedOrDropped(c, was, now, r, replies, o);
  }

  lemma ResidentHouses(c: Setting, was: State, now: State, id: DiscordID, replies: Replies)
    requires AllHoused(c, was) && c.start + now.launched <= PORTS && id in was.entries
    requires Moves(c, was, now, id, replies)
    ensures AllHoused(c, now) && |now.host.Keys| == |was.host.Keys|
  {
    hide PortsDistinct, StampsOf, Dies;
    StillHoused(was.entries, was.host.Keys, now.entries, now.host.Keys, c.start, c.start + was.launched,
                id, id, false);
  }

  lemma MovesFacts(c: Setting, was: State, now: State, id: DiscordID, replies: Replies)
    requires AllHoused(c, was) && c.start + now.launched <= PORTS && id !in was.entries
    requires Moves(c, was, now, id, replies)
    ensures now.launched == was.launched + Launches(was, id, c.limit)
    ensures PortsDistinct(now.entries, c.start, c.start + now.launched)
    ensures OnlyNew(was.entries, now.entries, id, PortAfter(was, id, c.start, c.limit))
    ensures Dies(id, replies) ==> id !in now.entries
    ensures ProcessesKept(PortsWithNew(was, id, c.start, c.limit), now.host.Keys,
                          PortAfter(was, id, c.start, c.limit), Dies(id, replies))
  {
    hide PortsDistinct, ProcessesKept, Dies, OnlyNew, PortAfter, PortsWithNew, StampsOf, Launches;
  }

  lemma NewcomerHasRoom(c: Setting, was: State, now: State, id: DiscordID, replies: Replies)
    requires |was.entries| < c.limit && AllHoused(c, was) && c.start + now.launched <= PORTS && id !in was.entries
    requires Moves(c, was, now, id, replies)
    ensures AllHoused(c, now) && |now.host.Keys| == |was.host.Keys| + 1 - (if Dies(id, replies) then 1 else 0)
  {
    hide Moves, Housed, PortsDistinct, ProcessesKept, Dies, OnlyNew, PortAfter, PortsWithNew, StampsOf;
    MovesFacts(c, was, now, id, replies);
    NextPort(was, id, c.start, c.limit);
    RoomHoused(was.entries, was.host.Keys, now.entries, now.host.Keys, c.start, c.start + was.launched,
               id, Dies(id, replies));
  }

  lemma NextPort(was: State, id: DiscordID, start: nat, limit: nat)
    requires id !in was.entries && |was.entries| < limit && start + was.launched < PORTS
    ensures PortAfter(was, id, start, limit) == start + was.launched
    ensures PortsWithNew(was, id, start, limit) == was.host.Keys + {start + was.launched}
  {
    hide PortNumber, StampsOf, IsOldest;
    PortNumberIsSmall(start + was.launched);
  }

  lemma NewcomerEvicts(c: Setting, was: State, now: State, id: DiscordID, replies: Replies)
    requires |was.entries| == c.limit > 0 && AllHoused(c, was) && c.start + now.launched <= PORTS
    requires id !in was.entries && Moves(c, was, now, id, replies)
    ensures AllHoused(c, now) && |now.host.Keys| == |was.host.Keys| - (if Dies(id, replies) then 1 else 0)
  {
    hide Housed, PortsDistinct, ProcessesKept, Dies, OnlyNew, PortAfter, PortsWithNew, StampsOf, State.PortsHold,
      ProcessesServed;
    MovesFacts(c, was, now, id, replies);
    EvictedPort(was, id, c.start, c.limit);
    StillHoused(was.entries, was.host.Keys, now.entries, now.host.Keys, c.start, c.start + was.launched,
                id, Oldest(StampsOf(was.entries)), Dies(id, replies));
  }

  lemma EvictedPort(was: State, id: DiscordID, start: nat, limit: nat)
    requires id !in was.entries && |was.entries| == limit > 0
    ensures Oldest(StampsOf(was.entries)) in was.entries
    ensures PortAfter(was, id, start, limit) == was.entries[Oldest(StampsOf(was.entries))].port
    ensures PortsWithNew(was, id, start, limit) == was.host.Keys
  {
    assert Oldest(StampsOf(was.entries)) in StampsOf(was.entries);
  }

  lemma OldestIsOldest(was: State, oldest: DiscordID)
    requires |was.entries| > 0 && oldest == Oldest(StampsOf(was.entries))
    ensures oldest in was.entries
    ensures forall j :: j in was.entries && j != oldest ==>
                          was.entries[oldest].timestamp < was.entries[j].timestamp ||
                          (was.entries[oldest].timestamp == was.entries[j].timestamp && oldest < j)
  {
    var stamps := StampsOf(was.entries);
    assert oldest in stamps;
    forall j | j in was.entries && j != oldest
      ensures was.entries[oldest].timestamp < was.entries[j].timestamp ||
              (was.entries[oldest].timestamp == was.entries[j].timestamp && oldest < j)
    {
      assert j in stamps;
    }
  }

  lemma RestartHouses(c: Setting, was: State, now: State, id: DiscordID, killed: bool, replies: Replies, o: Outcome)
    requires 0 < c.limit && AllHoused(c, was) && c.start + now.launched <= PORTS && id in was.entries
    requires Happens(was, now, Restart(id, killed, replies), o, c.start, c.limit, c.bot)
    ensures AllHoused(c, now) && |now.host.Keys| == |was.host.Keys| - (if Dies(id, replies) then 1 else 0)
  {
    hide Happens, PortsDistinct, ProcessesKept, Dies, Housed, OnlyNew;
    RestartFacts(c, was, now, id, killed, replies, o);
    StillHoused(was.entries, was.host.Keys, now.entries, now.host.Keys, c.start, c.start + was.launched,
                id, id, Dies(id, replies));
  }

  lemma RestartFacts(c: Setting, was: State, now: State, id: DiscordID, killed: bool, replies: Replies, o: Outcome)
    requires 0 < c.limit && AllHoused(c, was) && c.start + now.launched <= PORTS && id in was.entries
    requires Happens(was, now, Restart(id, killed, replies), o, c.start, c.limit, c.bot)
    ensures now.launched == was.launched && PortsDistinct(now.entries, c.start, c.start + now.launched)
    ensures OnlyNew(was.entries, now.entries, id, was.entries[id].port) && (Dies(id, replies) ==> id !in now.entries)
    ensures ProcessesKept(was.host.Keys, now.host.Keys, was.entries[id].port, Dies(id, replies))
  {
    hide OthersKept, ProcessesKept, Dies, SetsUp, PortsDistinct;
  }

  lemma SearchHouses(c: Setting, was: State, now: State, polls: Polls, o: Outcome)
    requires AllHoused(c, was) && o.Searched? && SearchedFrom(was, now, polls, o, c.bot)
    ensures AllHoused(c, now) && |now.host.Keys| == |was.host.Keys|
  {
    SearchKeepsKeys(was, now, polls, o, c.bot);
    forall k | k in now.entries ensures now.entries[k].port == was.entries[k].port {
      SearchKeepsUser(was, now, polls, o, c.bot, k);
    }
    hide SearchedFrom;
  }

  lemma ServeHouses(c: Setting, was: State, now: State, id: DiscordID, replies: Replies)
    requires 0 < c.limit && |was.entries| <= c.limit && AllHoused(c, was) && c.start + now.launched <= PORTS
    requires Moves(c, was, now, id, replies)
    ensures AllHoused(c, now) && now.launched == was.launched + Launches(was, id, c.limit)
    ensures |now.host.Keys| == |was.host.Keys| + Launches(was, id, c.limit)
                          - (if id !in was.entries && Dies(id, replies) then 1 else 0)
  {
    assert now.launched == was.launched + Launches(was, id, c.limit);
    hide Moves, AllHoused, Dies;
    if id in was.entries {
      ResidentHouses(c, was, now, id, replies);
    } else if |was.entries| < c.limit {
      NewcomerHasRoom(c, was, now, id, replies);
    } else {
      NewcomerEvicts(c, was, now, id, replies);
    }
  }

  lemma StepHouses(c: Setting, was: State, now: State, e: Event, o: Outcome)
    requires 0 < c.limit && |was.entries| <= c.limit && AllHoused(c, was) && c.start + now.launched <= PORTS
    requires Happens(was, now, e, o, c.start, c.limit, c.bot)
    ensures AllHoused(c, now)
    ensures |now.host.Keys| + |was.entries| == |was.host.Keys| + |now.entries| + if LeavesProcess(was, e) then 1 else 0
  {
    StepLaunches(c, was, now, e, o);
    hide AllHoused;
    match e
    case Serve(r, replies) =>
      ServeMoves(c, was, now, r, replies, o);
      ServeHouses(c, was, now, r.id, replies);
      hide Happens, Moves;
    case Restart(id, killed, replies) =>
      hide OthersKept, OnlyEntryChanged;
      if id in was.entries {
        RestartHouses(c, was, now, id, killed, replies, o);
      }
    case Search(polls) =>
      SearchHouses(c, was, now, polls, o);
  }

  lemma StepCounts(c: Setting, was: State, now: State, e: Event, o: Outcome)
    requires 0 < c.limit && Happens(was, now, e, o, c.start, c.limit, c.bot)
    ensures was.launched <= now.launched
  {
  }

  /** Over any run from an empty pool on, until the port counter wraps, the processes running
      are those of the entries and one for each resident who was dropped for a foreign
      wallet: the limit on the pool is a limit on processes only while nobody is. */
  lemma {:induction false} ProcessesAreEntriesAndLeft(c: Setting, states: seq<State>, events: seq<Event>,
                                                      outcomes: seq<Outcome>)
    requires IsPoolRun(c, states, events, outcomes) && c.start + states[|events|].launched <= PORTS
    requires states[0].entries == map[] && states[0].host == map[]
    ensures AllHoused(c, states[|events|]) && |states[|events|].entries| <= c.limit
    ensures |states[|events|].host.Keys| == |states[|events|].entries| + NumberLeft(states, events)
  {
    if events != [] {
      var n := |events| - 1;
      RunPrefix(c, states, events, outcomes, n);
      RunStep(c, states, events, outcomes, n);
      hide IsPoolRun, Happens, AllHoused, LeavesProcess;
      StepCounts(c, states[n], states[n + 1], events[n], outcomes[n]);
      ProcessesAreEntriesAndLeft(c, states[..n + 1], events[..n], outcomes[..n]);
      StepHouses(c, states[n], states[n + 1], events[n], outcomes[n]);
      StepLaunches(c, states[n], states[n + 1], events[n], outcomes[n]);
    }
  }

  /** In a full pool with no process to spare, one such loss and one new user later there is a
      process too many. */
  lemma OneProcessTooMany(c: Setting, was: State, mid: State, now: State, drop: Event, serve: Event,
                          o: Outcome, p: Outcome)
    requires 0 < c.limit == |was.entries| == |was.host.Keys| && AllHoused(c, was) && LeavesProcess(was, drop)
    requires Happens(was, mid, drop, o, c.start, c.limit, c.bot)
    requires Happens(mid, now, serve, p, c.start, c.limit, c.bot) && c.start + now.launched <= PORTS
    requires serve.Serve? && serve.request.id !in mid.entries && !serve.replies.waiting.NeverResponds?
    ensures |now.entries| == c.limit && |now.host.Keys| == c.limit + 1
  {
    StepCounts(c, mid, now, serve, p);
    StepHouses(c, was, mid, drop, o);
    StepLaunches(c, was, mid, drop, o);
    StepHouses(c, mid, now, serve, p);
    StepLaunches(c, mid, now, serve, p);
    Launched(c, was, mid, drop, o);
    Launched(c, mid, now, serve, p);
    hide Happens, AllHoused, OnForeignWallet;
  }

  lemma Launched(c: Setting, was: State, now: State, e: Event, o: Outcome)
    requires 0 < c.limit && Happens(was, now, e, o, c.start, c.limit, c.bot) && e.Serve?
    ensures now.launched == was.launched + Launches(was, e.request.id, c.limit)
  {
    ServeFacts(c, was, now, e.request, e.replies, o);
  }

  // ------------------------------------------------ runs: every transaction is told once

  /** The lists that the searches of a run got for a user, after the first one. */
  ghost function ListsFor(events: seq<Event>, outcomes: seq<Outcome>, k: DiscordID, first: seq<TransferItem>)
    : (lists: seq<seq<TransferItem>>)
    requires |events| == |outcomes|
    ensures lists != []
  {
    if events == [] then [first] else
      var n := |events| - 1;
      var before := ListsFor(events[..n], outcomes[..n], k, first);
      if IsPolled(events[n], outcomes[n], k) then before + [Listed(events[n].polls(k).entries)] else before
  }

  predicate IsPolled(e: Event, o: Outcome, k: DiscordID) {
    e.Search? && o.Searched? && k in o.polled && e.polls(k).Lists?
  }

  /** The report for a user of one outcome: empty if there is none. */
  function ReportFor(o: Outcome, k: DiscordID): Report {
    if o.Searched? && k in o.reports && k in o.polled then o.reports[k] else Report([], [])
  }

  /** All that is found new for a user over a run. */
  ghost function FoundFor(outcomes: seq<Outcome>, k: DiscordID): seq<TransferItem> {
    if outcomes == [] then [] else
      FoundFor(outcomes[..|outcomes| - 1], k) + ReportFor(outcomes[|outcomes| - 1], k).diff
  }

  /** All that a user is told over a run. */
  ghost function ToldTo(outcomes: seq<Outcome>, k: DiscordID): seq<TransferItem> {
    if outcomes == [] then [] else
      ToldTo(outcomes[..|outcomes| - 1], k) + ReportFor(outcomes[|outcomes| - 1], k).sent
  }

  /** What a user is never told. */
  ghost function LostFor(outcomes: seq<Outcome>, k: DiscordID): seq<TransferItem> {
    if outcomes == [] then [] else
      LostFor(outcomes[..|outcomes| - 1], k) + ReportFor(outcomes[|outcomes| - 1], k).Lost()
  }

  /** The user is resident all along and never restarted. */
  ghost predicate StaysResident(states: seq<State>, events: seq<Event>, k: DiscordID) {
    && (forall m :: 0 <= m < |states| ==> k in states[m].entries)
    && (forall m :: 0 <= m < |events| ==> events[m].Restart? ==> events[m].id != k)
  }

  /** What one event does to the history of a resident and tells it. */
  lemma StepOfHistory(c: Setting, was: State, now: State, e: Event, o: Outcome, k: DiscordID)
    requires 0 < c.limit && Happens(was, now, e, o, c.start, c.limit, c.bot)
    requires k in was.entries && k in now.entries && (e.Restart? ==> e.id != k)
    ensures !IsPolled(e, o, k) ==> now.entries[k].transactions == was.entries[k].transactions
    ensures !IsPolled(e, o, k) ==> !(o.Searched? && k in o.polled)
    ensures IsPolled(e, o, k) ==> && Polled(was.entries[k], now.entries[k], e.polls(k).entries)
                                  && Told(was.entries[k], e.polls(k).entries, e.polls(k).send, k, o.reports)
  {
    hide MayBecome, Touch, StampsOf, OnlyEntryChanged, Polled, Told;
    if e.Search? && k in o.polled {
      assert SearchedUser(was.entries[k], now.entries[k], e.polls(k), k, o.reports);
    }
    if e.Search? && k !in o.polled {
      assert now.entries[k] == was.entries[k];
    }
  }

  /** From a known history on, a resident's history is the last list, and what is found
      new for it are the differences between lists. */
  lemma {:induction false} HistoryIsLastList(c: Setting, states: seq<State>, events: seq<Event>, outcomes: seq<Outcome>,
                                             k: DiscordID, first: seq<TransferItem>)
    requires IsPoolRun(c, states, events, outcomes) && StaysResident(states, events, k)
    requires states[0].entries[k].transactions == Ordered(first)
    ensures var lists := ListsFor(events, outcomes, k, first);
            && states[|events|].entries[k].transactions == Ordered(lists[|lists| - 1])
            && FoundFor(outcomes, k) == AllReports(lists)
  {
    if events != [] {
      var n := |events| - 1;
      RunPrefix(c, states, events, outcomes, n);
      RunStep(c, states, events, outcomes, n);
      StaysPrefix(states, events, k, n);
      ListsSnoc(events, outcomes, k, first);
      hide IsPoolRun, Happens, StaysResident, ListsFor, FoundFor, IsPolled, ReportFor, AllReports, Ordered, Listed;
      HistoryIsLastList(c, states[..n + 1], events[..n], outcomes[..n], k, first);
      OneMoreList(c, states[n], states[n + 1], events[n], outcomes[n], k,
                  ListsFor(events[..n], outcomes[..n], k, first));
    }
  }

  lemma RunStep(c: Setting, states: seq<State>, events: seq<Event>, outcomes: seq<Outcome>, n: nat)
    requires IsPoolRun(c, states, events, outcomes) && n < |events|
    ensures 0 < c.limit && |states| == |events| + 1 && |outcomes| == |events|
    ensures Happens(states[n], states[n + 1], events[n], outcomes[n], c.start, c.limit, c.bot)
  {
  }

  lemma ListsSnoc(events: seq<Event>, outcomes: seq<Outcome>, k: DiscordID, first: seq<TransferItem>)
    requires |events| == |outcomes| && events != []
    ensures var n := |events| - 1;
            var before := ListsFor(events[..n], outcomes[..n], k, first);
            && ListsFor(events, outcomes, k, first) ==
               (if IsPolled(events[n], outcomes[n], k) then before + [Listed(events[n].polls(k).entries)] else before)
            && FoundFor(outcomes, k) == FoundFor(outcomes[..n], k) + ReportFor(outcomes[n], k).diff
  {
    hide IsPolled, ReportFor, Listed;
  }

  lemma StaysPrefix(states: seq<State>, events: seq<Event>, k: DiscordID, n: nat)
    requires StaysResident(states, events, k) && n < |events| && |states| == |events| + 1
    ensures StaysResident(states[..n + 1], events[..n], k)
    ensures k in states[n].entries && k in states[n + 1].entries && (events[n].Restart? ==> events[n].id != k)
  {
  }

  /** One event adds at most one list, and finds its difference from the one before. */
  lemma OneMoreList(c: Setting, was: State, now: State, e: Event, o: Outcome, k: DiscordID,
                    lists: seq<seq<TransferItem>>)
    requires 0 < c.limit && Happens(was, now, e, o, c.start, c.limit, c.bot)
    requires k in was.entries && k in now.entries && (e.Restart? ==> e.id != k)
    requires lists != [] && was.entries[k].transactions == Ordered(lists[|lists| - 1])
    ensures var more := if IsPolled(e, o, k) then lists + [Listed(e.polls(k).entries)] else lists;
            && now.entries[k].transactions == Ordered(more[|more| - 1])
            && AllReports(lists) + ReportFor(o, k).diff == AllReports(more)
  {
    hide Happens, Polled, Told, Ordered, Listed, AllReports, Reported;
    StepOfHistory(c, was, now, e, o, k);
    if IsPolled(e, o, k) {
      var list := Listed(e.polls(k).entries);
      ReportsSnoc(lists, list);
      ReportIsDifference(was.entries[k], now.entries[k], e.polls(k).entries, e.polls(k).send, k, o.reports,
                         lists[|lists| - 1]);
    }
  }

  lemma ReportsSnoc(lists: seq<seq<TransferItem>>, list: seq<TransferItem>)
    requires lists != []
    ensures AllReports(lists + [list]) == AllReports(lists) + Reported(list, lists[|lists| - 1])
  {
    hide Reported;
    assert (lists + [list])[..|lists|] == lists;
  }

  lemma ReportIsDifference(was: RPCProc, now: RPCProc, entries: seq<RpcEntry>, send: SendReply, k: DiscordID,
                           reports: map<DiscordID, Report>, last: seq<TransferItem>)
    requires Polled(was, now, entries) && Told(was, entries, send, k, reports) && was.transactions == Ordered(last)
    ensures now.transactions == Ordered(Listed(entries))
    ensures Reported(Listed(entries), last) == if k in reports then reports[k].diff else []
  {
    hide Ordered, Listed, SetDifference, Delivered;
  }

  /** Over any run, with searches, requests and restarts of others in any order: while
      a user stays resident, every transaction its wallet lists after the known
      history is found new exactly once and the amounts add up, as long as the
      wallet lists old items first. */
  lemma ResidentIsFoundOnce(c: Setting, states: seq<State>, events: seq<Event>, outcomes: seq<Outcome>,
                            k: DiscordID, first: seq<TransferItem>)
    requires IsPoolRun(c, states, events, outcomes) && StaysResident(states, events, k)
    requires states[0].entries[k].transactions == Ordered(first)
    requires Grows(ListsFor(events, outcomes, k, first))
    ensures var lists := ListsFor(events, outcomes, k, first);
            var last := lists[|lists| - 1];
            && multiset(first) + multiset(FoundFor(outcomes, k)) == multiset(last)
            && Amount(first) + Amount(FoundFor(outcomes, k)) == Amount(last)
  {
    hide Happens, StaysResident, Grows, AllReports, Ordered, FoundFor;
    HistoryIsLastList(c, states, events, outcomes, k, first);
    FirstList(events, outcomes, k, first);
    EachNewItemReportedOnce(ListsFor(events, outcomes, k, first));
  }

  /** The search goes on after this user: the wallet lists, and it stores what is new, if
      anything is and Poco has not refused a message about it before that. */
  ghost predicate LetsOn(was: RPCProc, poll: PollReply) {
    poll.Lists? &&
    var diff := ReportOf(was, poll.entries);
    poll.store != GeneralError || diff == [] || (poll.send.PocoErrorAfter? && poll.send.n < |diff|)
  }

  /** A round reaches exactly those before whom, in key order, everyone lets it on. */
  lemma RoundReaches(was: State, now: State, polls: Polls, o: Outcome, bot: DiscordID)
    requires o.Searched? && SearchedFrom(was, now, polls, o, bot)
    ensures o.completed <==> forall k :: k in was.entries && k != bot ==> LetsOn(was.entries[k], polls(k))
    ensures forall k :: k in o.polled <==>
              && k in was.entries && k != bot && polls(k).Lists?
              && forall j :: j in was.entries && j != bot && j < k ==> LetsOn(was.entries[j], polls(j))
  {
    assert RoundEnds(was.entries, polls, bot, o.polled, o.completed) && o.polled <= was.entries.Keys - {bot};
    hide SearchedFrom, Stops, LetsOn;
    forall k | k in was.entries ensures Stops(was.entries[k], polls(k)) <==> !LetsOn(was.entries[k], polls(k)) {
      LetsOnIff(was.entries[k], polls(k));
    }
  }

  lemma LetsOnIff(was: RPCProc, poll: PollReply)
    ensures LetsOn(was, poll) <==> !Stops(was, poll)
    ensures LetsOn(was, poll) ==> poll.Lists?
  {
    hide ReportOf;
  }

  /** A search finds something new for the user and a message about it is refused. */
  ghost predicate Refuses(was: State, e: Event, o: Outcome, k: DiscordID) {
    && IsPolled(e, o, k) && k in was.entries
    && Breaks(ReportOf(was.entries[k], e.polls(k).entries), e.polls(k).send)
  }

  /** One event loses something for a resident exactly if it refuses it a message. */
  lemma StepLosesIff(c: Setting, was: State, now: State, e: Event, o: Outcome, k: DiscordID)
    requires 0 < c.limit && Happens(was, now, e, o, c.start, c.limit, c.bot)
    requires k in was.entries && k in now.entries && (e.Restart? ==> e.id != k)
    ensures ReportFor(o, k).diff == ReportFor(o, k).sent + ReportFor(o, k).Lost()
    ensures ReportFor(o, k).Lost() != [] <==> Refuses(was, e, o, k)
  {
    StepOfHistory(c, was, now, e, o, k);
    hide Happens, Polled, ReportOf, Delivered, Breaks, Report.Lost;
    if IsPolled(e, o, k) {
      DeliveredOrLost(ReportOf(was.entries[k], e.polls(k).entries), e.polls(k).send);
    }
    NothingIsNotLost();
  }

  lemma DeliveredOrLost(diff: seq<TransferItem>, send: SendReply)
    ensures var report := Report(diff, Delivered(diff, send));
            diff == report.sent + report.Lost() && (report.Lost() != [] <==> Breaks(diff, send))
    ensures diff == [] ==> !Breaks(diff, send)
  {
  }

  lemma NothingIsNotLost()
    ensures Report([], []).Lost() == []
  {
  }

  lemma {:induction false} FoundIsToldOrLost(c: Setting, states: seq<State>, events: seq<Event>, outcomes: seq<Outcome>,
                                             k: DiscordID)
    requires IsPoolRun(c, states, events, outcomes) && StaysResident(states, events, k)
    ensures multiset(FoundFor(outcomes, k)) == multiset(ToldTo(outcomes, k)) + multiset(LostFor(outcomes, k))
    ensures LostFor(outcomes, k) == [] <==>
            forall i :: 0 <= i < |events| ==> !Refuses(states[i], events[i], outcomes[i], k)
  {
    if events != [] {
      var n := |events| - 1;
      RunPrefix(c, states, events, outcomes, n);
      FoundIsToldOrLost(c, states[..n + 1], events[..n], outcomes[..n], k);
      assert Happens(states[n], states[n + 1], events[n], outcomes[n], c.start, c.limit, c.bot);
      hide Happens, Refuses, ReportFor, Report.Lost, IsPoolRun, StaysResident;
      StepLosesIff(c, states[n], states[n + 1], events[n], outcomes[n], k);
      OneMoreReport(FoundFor(outcomes[..n], k), ToldTo(outcomes[..n], k), LostFor(outcomes[..n], k),
                    ReportFor(outcomes[n], k));
      PrefixRefuses(states, events, outcomes, k);
    }
  }

  lemma OneMoreReport(found: seq<TransferItem>, told: seq<TransferItem>, lost: seq<TransferItem>, report: Report)
    requires multiset(found) == multiset(told) + multiset(lost) && report.diff == report.sent + report.Lost()
    ensures multiset(found + report.diff) == multiset(told + report.sent) + multiset(lost + report.Lost())
    ensures lost + report.Lost() == [] <==> lost == [] && report.Lost() == []
  {
    hide Report.Lost;
    assert multiset(report.diff) == multiset(report.sent) + multiset(report.Lost());
  }

  lemma PrefixRefuses(states: seq<State>, events: seq<Event>, outcomes: seq<Outcome>, k: DiscordID)
    requires events != [] && |states| == |events| + 1 && |outcomes| == |events|
    ensures var n := |events| - 1;
            (forall i :: 0 <= i < |events| ==> !Refuses(states[i], events[i], outcomes[i], k)) <==>
            (forall i :: 0 <= i < n ==> !Refuses(states[..n + 1][i], events[..n][i], outcomes[..n][i], k)) &&
            !Refuses(states[n], events[n], outcomes[n], k)
  {
    hide Refuses;
    var n := |events| - 1;
    if forall i :: 0 <= i < n ==> !Refuses(states[..n + 1][i], events[..n][i], outcomes[..n][i], k) {
      forall i | 0 <= i < n ensures !Refuses(states[i], events[i], outcomes[i], k) {
        assert !Refuses(states[..n + 1][i], events[..n][i], outcomes[..n][i], k);
      }
    }
  }

  /** A resident is told every transaction after the known history exactly once if and
      only if Discord refuses it no message about something new. What is refused,
      with all that follows it in the same report, is told never. */
  lemma ResidentIsToldOnceIff(c: Setting, states: seq<State>, events: seq<Event>, outcomes: seq<Outcome>,
                              k: DiscordID, first: seq<TransferItem>)
    requires IsPoolRun(c, states, events, outcomes) && StaysResident(states, events, k)
    requires states[0].entries[k].transactions == Ordered(first)
    requires Grows(ListsFor(events, outcomes, k, first))
    ensures var lists := ListsFor(events, outcomes, k, first);
            var last := lists[|lists| - 1];
            && multiset(first) + multiset(ToldTo(outcomes, k)) + multiset(LostFor(outcomes, k)) == multiset(last)
            && (multiset(first) + multiset(ToldTo(outcomes, k)) == multiset(last) <==>
                forall i :: 0 <= i < |events| ==> !Refuses(states[i], events[i], outcomes[i], k))
  {
    hide IsPoolRun, StaysResident, Grows, Ordered, Refuses, FoundFor, ToldTo, LostFor, ListsFor;
    ResidentIsFoundOnce(c, states, events, outcomes, k, first);
    FoundIsToldOrLost(c, states, events, outcomes, k);
    var told, lost := multiset(first) + multiset(ToldTo(outcomes, k)), LostFor(outcomes, k);
    if lost == [] {
      assert multiset(lost) == multiset{};
    } else {
      assert lost[0] in multiset(lost) && (told + multiset(lost))[lost[0]] > told[lost[0]];
    }
  }

  lemma {:induction false} FirstList(events: seq<Event>, outcomes: seq<Outcome>, k: DiscordID, first: seq<TransferItem>)
    requires |events| == |outcomes|
    ensures ListsFor(events, outcomes, k, first)[0] == first
  {
    if events != [] {
      var n := |events| - 1;
      FirstList(events[..n], outcomes[..n], k, first);
    }
  }

  // ------------------------------------------------ runs: whose history is it

  /** The list a stored history comes from, and the user whose wallet gave it. */
  datatype Origin = Origin(wallet: Option<DiscordID>, list: seq<TransferItem>)

  /** Where the history of a user comes from, for a run that starts with an empty pool. */
  ghost function OriginOf(c: Setting, states: seq<State>, events: seq<Event>, outcomes: seq<Outcome>, k: DiscordID)
    : Origin
    requires |states| == |events| + 1 && |outcomes| == |events|
    decreases |events|
  {
    if events == [] then Origin(None, []) else
      var n := |events| - 1;
      var was, before := states[n], OriginOf(c, states[..n + 1], events[..n], outcomes[..n], k);
      match events[n]
      case Serve(r, replies) =>
        if r.id != k || k in was.entries then before
        else if SetsUp(replies) then Origin(Some(k), Listed(replies.transfers.value))
        else if |was.entries| < c.limit || was.entries == map[] then Origin(None, [])
        else OriginOf(c, states[..n + 1], events[..n], outcomes[..n], Oldest(StampsOf(was.entries)))
      case Restart(id, _, replies) =>
        if id == k && k in was.entries && SetsUp(replies) then Origin(Some(k), Listed(replies.transfers.value))
        else before
      case Search(polls) =>
        if IsPolled(events[n], outcomes[n], k) && k in was.entries
        then Origin(WalletOn(was.host, was.entries[k].port), Listed(polls(k).entries)) else before
  }

  /** One event moves a resident's history from its old origin to its new one. */
  lemma StepOfOrigin(c: Setting, states: seq<State>, events: seq<Event>, outcomes: seq<Outcome>, k: DiscordID)
    requires IsPoolRun(c, states, events, outcomes) && events != [] && k in states[|events|].entries
    requires var n := |events| - 1;
             forall j :: j in states[n].entries ==>
               states[n].entries[j].transactions ==
               Ordered(OriginOf(c, states[..n + 1], events[..n], outcomes[..n], j).list)
    ensures states[|events|].entries[k].transactions == Ordered(OriginOf(c, states, events, outcomes, k).list)
  {
    var n := |events| - 1;
    var was, now, e, o := states[n], states[n + 1], events[n], outcomes[n];
    assert Happens(was, now, e, o, c.start, c.limit, c.bot);
    match e
    case Serve(r, replies) =>
      if r.id == k && k !in was.entries && !SetsUp(replies) && |was.entries| >= c.limit && was.entries != map[] {
        assert Oldest(StampsOf(was.entries)) in StampsOf(was.entries);
      }
      hide MayBecome, Touch, StampsOf, OnlyEntryChanged, Listed;
    case Restart(_, _, _) =>
      hide OnlyEntryChanged, Listed;
    case Search(polls) =>
      hide Told, Listed;
      if k in o.polled {
        assert SearchedUser(was.entries[k], now.entries[k], polls(k), k, o.reports);
      }
  }

  /** Over any run from an empty pool, failures included, a resident's history is the
      list of its origin. */
  lemma {:induction false} HistoryHasOrigin(c: Setting, states: seq<State>, events: seq<Event>, outcomes: seq<Outcome>,
                                            k: DiscordID)
    requires IsPoolRun(c, states, events, outcomes) && states[0].entries == map[] && k in states[|events|].entries
    ensures states[|events|].entries[k].transactions == Ordered(OriginOf(c, states, events, outcomes, k).list)
  {
    if events != [] {
      var n := |events| - 1;
      RunPrefix(c, states, events, outcomes, n);
      forall j | j in states[n].entries
        ensures states[n].entries[j].transactions ==
                Ordered(OriginOf(c, states[..n + 1], events[..n], outcomes[..n], j).list)
      {
        HistoryHasOrigin(c, states[..n + 1], events[..n], outcomes[..n], j);
      }
      StepOfOrigin(c, states, events, outcomes, k);
    }
  }

  /** The user's own wallet gives a list: as the opening snapshot, after a restart, or to
      a search. */
  ghost predicate AnswersItself(was: State, e: Event, o: Outcome, k: DiscordID) {
    match e
    case Serve(r, replies) => r.id == k && k !in was.entries && SetsUp(replies)
    case Restart(id, _, replies) => id == k && k in was.entries && SetsUp(replies)
    case Search(_) => IsPolled(e, o, k) && was.Owns(k)
  }

  /** A search asks a wallet other than the user's about it. */
  ghost predicate AsksAnother(was: State, e: Event, o: Outcome, k: DiscordID) {
    IsPolled(e, o, k) && k in was.entries && !was.Owns(k)
  }

  /** A resident's history is its own once its own wallet has given a list since it was
      admitted, and no search has asked another wallet after that. */
  lemma {:induction false} HistoryIsOwn(c: Setting, states: seq<State>, events: seq<Event>, outcomes: seq<Outcome>,
                                        k: DiscordID, i: nat)
    requires |states| == |events| + 1 && |outcomes| == |events| && i < |events|
    requires AnswersItself(states[i], events[i], outcomes[i], k)
    requires forall m :: i < m <= |events| ==> k in states[m].entries
    requires forall m :: i < m < |events| ==> !AsksAnother(states[m], events[m], outcomes[m], k)
    ensures OriginOf(c, states, events, outcomes, k).wallet == Some(k)
    decreases |events|
  {
    var n := |events| - 1;
    hide OriginOf, AnswersItself, AsksAnother;
    if i < n {
      HistoryIsOwn(c, states[..n + 1], events[..n], outcomes[..n], k, i);
      OriginStaysOwn(c, states, events, outcomes, k);
    } else {
      OriginBecomesOwn(c, states, events, outcomes, k);
    }
  }

  lemma OriginStaysOwn(c: Setting, states: seq<State>, events: seq<Event>, outcomes: seq<Outcome>, k: DiscordID)
    requires |states| == |events| + 1 && |outcomes| == |events| && events != []
    requires var n := |events| - 1;
             && k in states[n].entries && !AsksAnother(states[n], events[n], outcomes[n], k)
             && OriginOf(c, states[..n + 1], events[..n], outcomes[..n], k).wallet == Some(k)
    ensures OriginOf(c, states, events, outcomes, k).wallet == Some(k)
  {
    hide SetsUp, Listed, StampsOf;
  }

  lemma OriginBecomesOwn(c: Setting, states: seq<State>, events: seq<Event>, outcomes: seq<Outcome>, k: DiscordID)
    requires |states| == |events| + 1 && |outcomes| == |events| && events != []
    requires AnswersItself(states[|events| - 1], events[|events| - 1], outcomes[|events| - 1], k)
    ensures OriginOf(c, states, events, outcomes, k).wallet == Some(k)
  {
    hide SetsUp, Listed, StampsOf;
  }

  /** With room for one: user 1 is served, user 2 takes over its process, opens its wallet,
      and gets no snapshot. The next request finds an entry and serves user 2, in its
      own wallet, with the history of user 1. */
  method ServedWithForeignHistory(list: seq<RpcEntry>) returns (m: RPCManager, result: Result)
    ensures result.Ok? && m.Now().Owns(2) && m.rpcMap[2].transactions == Ordered(Listed(list))
  {
    hide RPCManager.Inv, MayBecome, Touch, Ordered, Listed, OthersKept;
    m := ServedOne(list);
    OnlyOneIsOldest(m.Now(), 1);
    var noSnapshot := Replies(Responds, OpenSucceeds, None, true, Synced(0, 0));
    result := m.GetAccount(2, 2, 3, noSnapshot);
    result := m.GetAccount(2, 4, 5, noSnapshot);
  }

  method ServedOne(list: seq<RpcEntry>) returns (m: RPCManager)
    ensures fresh(m) && m.Inv() && m.limit == 1 && m.botID == 0
    ensures m.rpcMap.Keys == {1} && m.rpcMap[1].transactions == Ordered(Listed(list))
  {
    m := new RPCManager(1000, 1, 0);
    hide MayBecome, Touch, Ordered, Listed;
    assert StampsOf(m.rpcMap).Keys == {};
    var result := m.GetAccount(1, 0, 1, Replies(Responds, OpenSucceeds, Some(list), true, Synced(0, 0)));
    assert 1 in m.rpcMap && |m.rpcMap.Keys| <= 1;
    OnlyMember(m.rpcMap.Keys, 1);
  }

  lemma OnlyMember(s: set<DiscordID>, x: DiscordID)
    requires x in s && |s| <= 1
    ensures s == {x}
  {
    if y :| y in s && y != x {
      SubsetSize({x, y}, s);
    }
  }

  lemma OnlyOneIsOldest(state: State, k: DiscordID)
    requires state.entries.Keys == {k}
    ensures |state.entries| == 1 && Oldest(StampsOf(state.entries)) == k
  {
    assert Oldest(StampsOf(state.entries)) in StampsOf(state.entries);
    assert |state.entries.Keys| == 1;
  }

  /** User 1 receives one transaction and refuses messages: the first search finds it and
      sends nothing, the second, with messages welcome again, finds nothing. */
  method RefusedIsNeverTold(entry: RpcEntry) returns (first: map<DiscordID, Report>, second: map<DiscordID, Report>)
    ensures 1 in first && first[1].sent == [] && 1 !in second
    ensures first[1].diff == [FromEntry(entry)]
  {
    hide RPCManager.Inv, Ordered, Listed, SetDifference;
    OneItemHistory(entry);
    var m := ServedOne([]);
    var completed; ghost var polled;
    first, polled, completed := m.ProcessNewTransactions(_ => Lists([entry], DiscordErrorAfter(0), Stored));
    assert completed && 1 in polled;
    second, polled, completed := m.ProcessNewTransactions(_ => Lists([entry], AllSent, Stored));
    assert completed && 1 in polled;
  }

  lemma OneItemHistory(entry: RpcEntry)
    ensures Ordered(Listed([])) == [] && Ordered(Listed([entry])) == [FromEntry(entry)]
    ensures SetDifference([FromEntry(entry)], []) == [FromEntry(entry)]
    ensures SetDifference([FromEntry(entry)], [FromEntry(entry)]) == []
  {
  }
}
