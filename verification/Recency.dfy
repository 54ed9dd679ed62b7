/** The pool of wallet processes as time stamps: who is resident, who is the
    oldest, who is evicted (`getAccount` and `FindOldestRPC` in
    src/RPCManager.cpp), and the rule that this is least recently used. */
module Recency {
  import opened Sets
  import opened Types

  /** Time stamp of each resident user. */
  type Stamps = map<DiscordID, int>

  // ------------------------------------------------ the oldest entry

  /** What `std::min_element` finds: the least stamp, and the least id among equals. */
  ghost predicate IsOldest(stamps: Stamps, o: DiscordID) {
    o in stamps &&
    forall k :: k in stamps ==> stamps[o] < stamps[k] || (stamps[o] == stamps[k] && o <= k)
  }

  ghost function Oldest(stamps: Stamps): (o: DiscordID)
    requires |stamps| > 0
    ensures IsOldest(stamps, o)
    decreases |stamps|
  {
    assert stamps.Keys != {};
    var k :| k in stamps;
    var rest := stamps - {k};
    assert rest.Keys == stamps.Keys - {k};
    assert forall j :: j in stamps ==> j == k || j in rest.Keys;
    if |rest| == 0 then
      assert rest.Keys == {};
      k
    else
      var r := Oldest(rest);
      if stamps[k] < stamps[r] || (stamps[k] == stamps[r] && k <= r) then k else r
  }

  /** No other user has the oldest entry. */
  lemma OldestUnique(stamps: Stamps, o: DiscordID)
    requires IsOldest(stamps, o)
    ensures |stamps| > 0 && Oldest(stamps) == o
  {
    assert o in stamps.Keys;
  }

  // ------------------------------------------------ one request

  /** The entry of o, stamp included, goes to id. */
  ghost function Replace(stamps: Stamps, o: DiscordID, id: DiscordID): (a: Stamps)
    requires o in stamps && id !in stamps
    ensures a.Keys == stamps.Keys - {o} + {id} && |a| == |stamps|
    ensures a[id] == stamps[o] && forall k :: k in stamps && k != o ==> a[k] == stamps[k]
  {
    var kept := stamps - {o};
    assert kept.Keys == stamps.Keys - {o};
    assert kept[id := stamps[o]].Keys == kept.Keys + {id};
    kept[id := stamps[o]]
  }

  /** Making a user resident: nothing if it is, a new entry if there is room,
      else the entry of the oldest, stamp included. */
  ghost function Admit(stamps: Stamps, limit: nat, id: DiscordID, launchTime: int): (a: Stamps)
    requires limit > 0
    ensures id in a
    ensures a.Keys == if id in stamps then stamps.Keys
                      else if |stamps| < limit then stamps.Keys + {id}
                      else stamps.Keys - {Oldest(stamps)} + {id}
    ensures |a| == if id in stamps || |stamps| >= limit then |stamps| else |stamps| + 1
  {
    if id in stamps then stamps
    else if |stamps| < limit then
      assert stamps[id := launchTime].Keys == stamps.Keys + {id};
      stamps[id := launchTime]
    else Replace(stamps, Oldest(stamps), id)
  }

  /** A request that succeeds stamps the entry with the time. */
  ghost function Touch(stamps: Stamps, limit: nat, id: DiscordID, launchTime: int, now: int): Stamps
    requires limit > 0
  {
    Admit(stamps, limit, id, launchTime)[id := now]
  }

  /** What any request may do, wherever a wallet call fails: stop before the stamp,
      drop the entry, or get as far as the stamp. */
  ghost predicate MayBecome(stamps: Stamps, after: Stamps, limit: nat, id: DiscordID, launchTime: int, now: int)
    requires limit > 0
  {
    var admitted := Admit(stamps, limit, id, launchTime);
    after == admitted || after == admitted - {id} || after == admitted[id := now]
  }

  // ------------------------------------------------ least recently used

  datatype Request = Request(id: DiscordID, launchTime: int, now: int)

  /** A strictly increasing clock. */
  ghost predicate ClockRuns(requests: seq<Request>) {
    forall i, j :: 0 <= i < j < |requests| ==> requests[i].now < requests[j].now
  }

  /** The pool after requests that all succeed, starting empty. */
  ghost function Pool(requests: seq<Request>, limit: nat): Stamps
    requires limit > 0
  {
    if requests == [] then map[] else
      var r := requests[|requests| - 1];
      Touch(Pool(requests[..|requests| - 1], limit), limit, r.id, r.launchTime, r.now)
  }

  ghost function Requesters(requests: seq<Request>): set<DiscordID> {
    if requests == [] then {} else
      Requesters(requests[..|requests| - 1]) + {requests[|requests| - 1].id}
  }

  /** The users requested after the last request of a user. */
  ghost function RequestedSince(requests: seq<Request>, id: DiscordID): set<DiscordID> {
    if requests == [] || requests[|requests| - 1].id == id then {} else
      RequestedSince(requests[..|requests| - 1], id) + {requests[|requests| - 1].id}
  }

  /** One of the `limit` most recently requested distinct users. */
  ghost predicate AmongMostRecent(requests: seq<Request>, limit: nat, id: DiscordID) {
    id in Requesters(requests) && |RequestedSince(requests, id)| < limit
  }

  ghost function LastIndex(requests: seq<Request>, id: DiscordID): (i: nat)
    requires id in Requesters(requests)
    ensures i < |requests| && requests[i].id == id
  {
    if requests[|requests| - 1].id == id then |requests| - 1 else LastIndex(requests[..|requests| - 1], id)
  }

  /** Requested since the last request of j: those whose own last request is later. */
  lemma {:induction false} SinceIsLater(requests: seq<Request>, j: DiscordID, k: DiscordID)
    requires j in Requesters(requests)
    ensures k in RequestedSince(requests, j) <==>
            k in Requesters(requests) && LastIndex(requests, k) > LastIndex(requests, j)
  {
    var init, last := requests[..|requests| - 1], requests[|requests| - 1];
    if last.id != j && last.id != k {
      SinceIsLater(init, j, k);
    }
  }

  lemma SinceNested(requests: seq<Request>, j: DiscordID, k: DiscordID)
    requires j in Requesters(requests) && k in RequestedSince(requests, j)
    ensures k in Requesters(requests) && |RequestedSince(requests, k)| < |RequestedSince(requests, j)|
  {
    SinceIsLater(requests, j, k);
    forall m | m in RequestedSince(requests, k) ensures m in RequestedSince(requests, j) {
      SinceIsLater(requests, k, m);
      SinceIsLater(requests, j, m);
    }
    SinceIsLater(requests, k, k);
    ProperSubsetSize(RequestedSince(requests, k), RequestedSince(requests, j), k);
  }

  /** The residents are the most recent users. */
  ghost predicate MostRecentResident(requests: seq<Request>, limit: nat, stamps: Stamps) {
    forall k :: k in stamps <==> AmongMostRecent(requests, limit, k)
  }

  /** Each stamp is the time of the last request. */
  ghost predicate Stamped(requests: seq<Request>, stamps: Stamps) {
    forall k :: k in stamps ==> k in Requesters(requests) && stamps[k] == requests[LastIndex(requests, k)].now
  }

  /** Within the limit, and nobody left out while there is room. */
  ghost predicate Filled(requests: seq<Request>, limit: nat, stamps: Stamps) {
    && |stamps| <= limit && stamps.Keys <= Requesters(requests)
    && (|stamps| < limit ==> stamps.Keys == Requesters(requests))
  }

  /** What the pool keeps from request to request. */
  ghost predicate Tracks(requests: seq<Request>, limit: nat, stamps: Stamps) {
    MostRecentResident(requests, limit, stamps) && Stamped(requests, stamps) && Filled(requests, limit, stamps)
  }

  lemma ClockOrder(requests: seq<Request>, i: nat, j: nat)
    requires ClockRuns(requests) && i < |requests| && j < |requests|
    ensures i < j <==> requests[i].now < requests[j].now
  {
    if j < i {
      assert requests[j].now < requests[i].now;
    }
  }

  /** Stamps order the residents as their last requests do. */
  lemma OldestIsLeastRecent(requests: seq<Request>, limit: nat, stamps: Stamps, o: DiscordID, k: DiscordID)
    requires ClockRuns(requests) && Tracks(requests, limit, stamps)
    requires IsOldest(stamps, o) && k in stamps && k != o
    ensures k in RequestedSince(requests, o) && o !in RequestedSince(requests, k)
  {
    SinceIsLater(requests, o, k);
    SinceIsLater(requests, k, o);
    ClockOrder(requests, LastIndex(requests, k), LastIndex(requests, o));
    assert stamps[o] <= stamps[k];
  }

  /** Whoever was requested since a resident is resident. */
  lemma LaterIsResident(requests: seq<Request>, limit: nat, stamps: Stamps, k: DiscordID)
    requires Tracks(requests, limit, stamps) && k in stamps
    ensures RequestedSince(requests, k) <= stamps.Keys - {k}
  {
    forall m | m in RequestedSince(requests, k) ensures m in stamps && m != k {
      SinceNested(requests, k, m);
      assert AmongMostRecent(requests, limit, m);
    }
  }

  lemma TouchResident(requests: seq<Request>, limit: nat, stamps: Stamps, r: Request, k: DiscordID)
    requires limit > 0 && Tracks(requests, limit, stamps) && r.id in stamps && k != r.id
    ensures |RequestedSince(requests, k) + {r.id}| < limit && k in Requesters(requests) <==> k in stamps
  {
    var since := RequestedSince(requests, k);
    SubsetSize(since, since + {r.id});
    if k in stamps && r.id !in since {
      SinceIsLater(requests, k, r.id);
      SinceIsLater(requests, r.id, k);
      assert LastIndex(requests, k) != LastIndex(requests, r.id);
      SinceNested(requests, r.id, k);
    }
  }

  lemma AddedSize(s: set<DiscordID>, x: DiscordID)
    ensures |s + {x}| == if x in s then |s| else |s| + 1
  {
    if x in s {
      assert s + {x} == s;
    }
  }

  lemma TouchWithRoom(requests: seq<Request>, limit: nat, stamps: Stamps, r: Request, k: DiscordID)
    requires Tracks(requests, limit, stamps) && r.id !in stamps && |stamps| < limit && k != r.id
    ensures |RequestedSince(requests, k) + {r.id}| < limit && k in Requesters(requests) <==> k in stamps
  {
    if k in stamps {
      LaterIsResident(requests, limit, stamps, k);
      SubsetSize(RequestedSince(requests, k), stamps.Keys - {k});
      AddedSize(RequestedSince(requests, k), r.id);
    }
  }

  lemma TouchEvicts(requests: seq<Request>, limit: nat, stamps: Stamps, r: Request, o: DiscordID, k: DiscordID)
    requires ClockRuns(requests) && Tracks(requests, limit, stamps) && r.id !in stamps && |stamps| == limit > 0
    requires IsOldest(stamps, o) && k != r.id
    ensures |RequestedSince(requests, k) + {r.id}| < limit && k in Requesters(requests) <==> k in stamps && k != o
  {
    var since := RequestedSince(requests, k);
    AddedSize(since, r.id);
    SubsetSize(since, since + {r.id});
    if k in stamps && k != o {
      LaterIsResident(requests, limit, stamps, k);
      OldestIsLeastRecent(requests, limit, stamps, o, k);
      SubsetSize(since, stamps.Keys - {k} - {o});
    } else if k == o {
      forall m | m in stamps.Keys - {o} ensures m in since {
        OldestIsLeastRecent(requests, limit, stamps, o, m);
      }
      SubsetSize(stamps.Keys - {o}, since);
      LaterIsResident(requests, limit, stamps, o);
    }
  }

  lemma TouchKeys(requests: seq<Request>, limit: nat, stamps: Stamps, r: Request, k: DiscordID)
    requires limit > 0 && ClockRuns(requests) && Tracks(requests, limit, stamps) && k != r.id
    ensures k in Admit(stamps, limit, r.id, r.launchTime) <==>
            |RequestedSince(requests, k) + {r.id}| < limit && k in Requesters(requests)
  {
    if r.id in stamps {
      TouchResident(requests, limit, stamps, r, k);
    } else if |stamps| < limit {
      TouchWithRoom(requests, limit, stamps, r, k);
    } else {
      TouchEvicts(requests, limit, stamps, r, Oldest(stamps), k);
    }
  }

  lemma Appended(requests: seq<Request>, r: Request)
    ensures var all := requests + [r];
            && all[..|all| - 1] == requests && all[|all| - 1] == r
            && Requesters(all) == Requesters(requests) + {r.id}
  {
  }

  lemma TouchStamps(requests: seq<Request>, limit: nat, stamps: Stamps, r: Request)
    requires limit > 0 && Tracks(requests, limit, stamps)
    ensures Stamped(requests + [r], Touch(stamps, limit, r.id, r.launchTime, r.now))
  {
    Appended(requests, r);
    var admitted := Admit(stamps, limit, r.id, r.launchTime);
    forall k | k in admitted && k != r.id
      ensures k in Requesters(requests) && admitted[k] == requests[LastIndex(requests, k)].now
    {
      assert k in stamps;
    }
  }

  lemma TouchResidents(requests: seq<Request>, limit: nat, stamps: Stamps, r: Request)
    requires limit > 0 && ClockRuns(requests) && Tracks(requests, limit, stamps)
    ensures MostRecentResident(requests + [r], limit, Touch(stamps, limit, r.id, r.launchTime, r.now))
  {
    Appended(requests, r);
    forall k: DiscordID
      ensures k in Touch(stamps, limit, r.id, r.launchTime, r.now) <==> AmongMostRecent(requests + [r], limit, k)
    {
      if k != r.id {
        TouchKeys(requests, limit, stamps, r, k);
      }
    }
  }

  lemma TouchFills(requests: seq<Request>, limit: nat, stamps: Stamps, r: Request)
    requires limit > 0 && Filled(requests, limit, stamps)
    ensures Filled(requests + [r], limit, Touch(stamps, limit, r.id, r.launchTime, r.now))
  {
    Appended(requests, r);
    var admitted := Admit(stamps, limit, r.id, r.launchTime);
    assert admitted[r.id := r.now].Keys == admitted.Keys;
  }

  /** One more successful request keeps the pool in step with the rule. */
  lemma TouchTracks(requests: seq<Request>, limit: nat, stamps: Stamps, r: Request)
    requires limit > 0 && ClockRuns(requests) && Tracks(requests, limit, stamps)
    ensures Tracks(requests + [r], limit, Touch(stamps, limit, r.id, r.launchTime, r.now))
  {
    TouchStamps(requests, limit, stamps, r);
    TouchResidents(requests, limit, stamps, r);
    TouchFills(requests, limit, stamps, r);
  }

  lemma ClockRunsBefore(requests: seq<Request>)
    requires ClockRuns(requests) && requests != []
    ensures ClockRuns(requests[..|requests| - 1])
  {
  }

  lemma {:induction false} PoolTracks(requests: seq<Request>, limit: nat)
    requires limit > 0 && ClockRuns(requests)
    ensures Tracks(requests, limit, Pool(requests, limit))
  {
    if requests == [] {
    } else {
      hide Tracks, Touch, ClockRuns;
      var init, last := requests[..|requests| - 1], requests[|requests| - 1];
      ClockRunsBefore(requests);
      PoolTracks(init, limit);
      TouchTracks(init, limit, Pool(init, limit), last);
      assert init + [last] == requests;
    }
  }

  /** From an empty pool, after any successful requests under a strictly
      increasing clock, the residents are exactly the most recently requested
      distinct users, as many as there is room for. */
  lemma PoolIsLeastRecentlyUsed(requests: seq<Request>, limit: nat)
    requires limit > 0 && ClockRuns(requests)
    ensures forall k :: k in Pool(requests, limit) <==> AmongMostRecent(requests, limit, k)
    ensures |Pool(requests, limit)| == if |Requesters(requests)| < limit then |Requesters(requests)| else limit
  {
    PoolTracks(requests, limit);
    SubsetSize(Pool(requests, limit).Keys, Requesters(requests));
  }

  // ------------------------------------------------ who is safe from eviction

  /** Apart from s, only users of `others` have stamps as late as that of s. */
  ghost predicate Sheltered(stamps: Stamps, s: DiscordID, others: set<DiscordID>) {
    s in stamps && s !in others &&
    forall k :: k in stamps && k != s && stamps[k] >= stamps[s] ==> k in others
  }

  /** A request for another user, failed or not, leaves s resident as long as
      fewer distinct others than the limit have been requested. */
  lemma ShelteredStays(stamps: Stamps, after: Stamps, limit: nat, r: Request, s: DiscordID, others: set<DiscordID>)
    requires limit > 0 && |stamps| <= limit && MayBecome(stamps, after, limit, r.id, r.launchTime, r.now)
    requires r.id != s && Sheltered(stamps, s, others) && |others + {r.id}| < limit
    ensures Sheltered(after, s, others + {r.id}) && after[s] == stamps[s] && |after| <= limit
  {
    if r.id !in stamps && |stamps| == limit && Oldest(stamps) == s {
      SubsetSize(stamps.Keys - {s} + {r.id}, others + {r.id});
    }
    var admitted := Admit(stamps, limit, r.id, r.launchTime);
    hide IsOldest;
    AfterAdmission(admitted, after, r.id, r.now);
  }

  lemma AfterAdmission(admitted: Stamps, after: Stamps, id: DiscordID, now: int)
    requires id in admitted && (after == admitted || after == admitted - {id} || after == admitted[id := now])
    ensures |after| <= |admitted| && after.Keys <= admitted.Keys
    ensures forall k :: k in admitted && k != id ==> k in after && after[k] == admitted[k]
  {
    assert (admitted - {id}).Keys == admitted.Keys - {id};
    assert admitted[id := now].Keys == admitted.Keys;
    SubsetSize(after.Keys, admitted.Keys);
  }

  /** The states of a run of requests, each of which may fail anywhere. */
  ghost predicate IsRun(states: seq<Stamps>, requests: seq<Request>, limit: nat)
    requires limit > 0
  {
    |states| == |requests| + 1 &&
    forall i :: 0 <= i < |requests| ==>
                  MayBecome(states[i], states[i + 1], limit, requests[i].id, requests[i].launchTime, requests[i].now)
  }

  /** A user who was served last stays resident while fewer distinct other users
      than the limit are requested, whatever becomes of their requests. */
  lemma {:induction false} LatestStaysResident(states: seq<Stamps>, requests: seq<Request>, limit: nat, s: DiscordID)
    requires limit > 0 && IsRun(states, requests, limit) && |states[0]| <= limit
    requires s in states[0] && forall k :: k in states[0] && k != s ==> states[0][k] < states[0][s]
    requires s !in Requesters(requests) && |Requesters(requests)| < limit
    ensures var last := states[|requests|];
            Sheltered(last, s, Requesters(requests)) && last[s] == states[0][s] && |last| <= limit
  {
    if requests != [] {
      var n := |requests| - 1;
      SubsetSize(Requesters(requests[..n]), Requesters(requests));
      LatestStaysResident(states[..n + 1], requests[..n], limit, s);
      ShelteredStays(states[n], states[n + 1], limit, requests[n], s, Requesters(requests[..n]));
    }
  }
}
