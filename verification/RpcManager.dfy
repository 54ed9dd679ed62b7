/** The bounded pool of wallet processes (src/RPCManager.cpp, src/RPCManager.h).

    Processes live on a host that maps a port to the wallet its process has
    open. What each wallet call answers, and the readings of the clock, are
    parameters: every theorem holds for all of them. Thrown exceptions are the
    result `Thrown`. */
module RpcManager {
  import opened Wrappers
  import opened Transfers
  import opened Recency
  import opened Sets
  import opened Types

  /** Number of values of an `unsigned short`. */
  const PORTS: nat := 0x1_0000

  /** What an account's `RPCPtr` points to: the RPC of a pool entry, or a local variable
      of `SpinUpNewRPC` that is gone. */
  datatype RpcPtr = RpcOfEntry(id: DiscordID) | RpcOfLocal

  /** Wallets, and hence addresses, of different users differ, and from addresses
      outside the bot. */
  datatype Address = NoAddress | AddressOf(id: DiscordID) | Outside(text: string)

  datatype Account = Account(rpcPtr: RpcPtr, discordID: DiscordID,
                             balance: nat, unlockedBalance: nat, myAddress: Address)

  datatype RPCProc = RPCProc(timestamp: int, port: nat, account: Account, transactions: seq<TransferItem>)

  type Entries = map<DiscordID, RPCProc>

  /** For each port with a process: the user whose wallet it has open, if any. */
  type Host = map<nat, Option<DiscordID>>

  /** A process that never answers is killed, unless that throws in turn. */
  datatype WaitReply = Responds | OtherError | NeverResponds(killThrows: bool)
  datatype OpenReply = OpenSucceeds | OpenFails(leavesOpen: Option<DiscordID>)
  datatype ResyncReply = ResyncFails | AddressFails(balance: nat, unlocked: nat) | Synced(balance: nat, unlocked: nat)

  datatype Replies = Replies(waiting: WaitReply, open: OpenReply, transfers: Option<seq<RpcEntry>>,
                             addressAnswers: bool, resync: ResyncReply)

  datatype Result = Ok(account: Account) | Thrown

  function WalletOn(host: Host, port: nat): Option<DiscordID> {
    if port in host then host[port] else None
  }

  ghost function StampsOf(entries: Entries): (s: Stamps)
    ensures s.Keys == entries.Keys && |s| == |entries|
    ensures forall k :: k in entries ==> s[k] == entries[k].timestamp
  {
    var s: Stamps := map k | k in entries :: entries[k].timestamp;
    assert s.Keys == entries.Keys;
    s
  }

  /** Each entry belongs to the user of its key, and its account points to its own RPC. */
  ghost predicate Consistent(entries: Entries) {
    forall k :: k in entries ==>
                  entries[k].account.discordID == k && entries[k].account.rpcPtr == RpcOfEntry(k)
  }

  /** Ports handed out so far lie below `next`, one to an entry. */
  ghost predicate PortsDistinct(entries: Entries, start: nat, next: nat) {
    && (forall k :: k in entries ==> start <= entries[k].port < next)
    && (forall j, k :: j in entries && k in entries && j != k ==> entries[j].port != entries[k].port)
  }

  /** The pool and the host at one moment. */
  datatype State = State(entries: Entries, host: Host, launched: nat) {
    /** The process of the user's entry has the user's wallet open. */
    ghost predicate Owns(id: DiscordID) {
      id in entries && WalletOn(host, entries[id].port) == Some(id)
    }

    /** Whether the answers r let the user be served. */
    ghost predicate Serves(id: DiscordID, r: Replies) {
      (if id in entries then Owns(id) else SetsUp(r)) && r.addressAnswers && r.resync.Synced?
    }

    ghost predicate PortsHold(start: nat) {
      start + launched <= PORTS ==> PortsDistinct(entries, start, start + launched)
    }
  }

  /** From `was` to `now`, nothing changed for users other than id, except that
      one of them may be gone, as long as the port counter has not wrapped. */
  ghost predicate OthersKept(was: State, now: State, start: nat, id: DiscordID) {
    was.launched <= now.launched &&
    forall k :: k in now.entries && k != id ==>
                  && k in was.entries && now.entries[k] == was.entries[k]
                  && (start + now.launched <= PORTS ==>
                        WalletOn(now.host, now.entries[k].port) == WalletOn(was.host, was.entries[k].port))
  }

  // ------------------------------------------------ what one request changes

  lemma NothingChanged(was: State, start: nat, id: DiscordID)
    ensures OthersKept(was, was, start, id)
  {
  }

  ghost function OpenedFor(proc: RPCProc, id: DiscordID): RPCProc {
    proc.(account := proc.account.(discordID := id, rpcPtr := RpcOfEntry(id)))
  }

  ghost predicate EntryOpened(proc: RPCProc, id: DiscordID) {
    proc.account.discordID == id && proc.account.rpcPtr == RpcOfEntry(id)
  }

  /** The replies that let an entry be set up. */
  ghost predicate SetsUp(r: Replies) {
    Opens(r) && r.transfers.Some?
  }

  /** The replies that get as far as opening the wallet. */
  ghost predicate Opens(r: Replies) {
    !r.waiting.NeverResponds? && r.open.OpenSucceeds?
  }

  /** The process never answers and is killed, so that the user's entry goes. */
  ghost predicate Dies(id: DiscordID, r: Replies) {
    r.waiting == NeverResponds(false) && id != 0
  }

  /** The wallet that a setup leaves open in a process that had `before` open. */
  ghost function OpenedWallet(before: Option<DiscordID>, id: DiscordID, r: Replies): Option<DiscordID> {
    if r.waiting.NeverResponds? then before
    else if r.open.OpenFails? then r.open.leavesOpen
    else Some(id)
  }

  /** The ports with a process, before and after a setup on one of them. */
  ghost predicate ProcessesKept(before: set<nat>, after: set<nat>, port: nat, dies: bool) {
    if dies then after == before - {port} else before <= after <= before + {port}
  }

  lemma RelaunchKeeps(before: set<nat>, again: set<nat>, after: set<nat>, port: nat, dies: bool)
    requires before <= again <= before + {port} && ProcessesKept(again, after, port, dies)
    ensures ProcessesKept(before, after, port, dies)
  {
  }

  /** What becomes of the entry of a user who asks. */
  datatype Fate = Dropped | Unstamped | Stamped

  /** A process that has the wallet of someone else open costs a resident the entry, and
      one that never answers a new user; both halves of the request must get as far as
      the address for a stamp. */
  ghost function FateOf(was: State, id: DiscordID, r: Replies): Fate {
    if id in was.entries then
      var wallet := WalletOn(was.host, was.entries[id].port);
      if !r.addressAnswers || wallet.None? then Unstamped else if wallet == Some(id) then Stamped else Dropped
    else if Dies(id, r) then Dropped
    else if SetsUp(r) && r.addressAnswers then Stamped
    else Unstamped
  }

  ghost function StampsAfter(fate: Fate, stamps: Stamps, limit: nat, id: DiscordID, launchTime: int, t: int): Stamps
    requires 0 < limit
  {
    match fate
    case Dropped => Admit(stamps, limit, id, launchTime) - {id}
    case Unstamped => Admit(stamps, limit, id, launchTime)
    case Stamped => Touch(stamps, limit, id, launchTime, t)
  }

  /** The entry between two states has met its fate. */
  ghost predicate Meets(fate: Fate, was: State, now: State, id: DiscordID, t: int) {
    && id in was.entries && (id in now.entries <==> !fate.Dropped?)
    && (fate.Unstamped? ==> now.entries[id].timestamp == was.entries[id].timestamp)
    && (fate.Stamped? ==> now.entries[id].timestamp == t)
  }

  lemma NotReady(was: State, mid: State, now: State, id: DiscordID, r: Replies, t: int)
    requires id !in was.entries && !SetsUp(r) && id in mid.entries && (id in now.entries <==> !Dies(id, r))
    requires id in now.entries ==> now.entries[id].timestamp == mid.entries[id].timestamp
    ensures Meets(FateOf(was, id, r), mid, now, id, t)
  {
  }

  /** An entry that is ready meets the fate that the whole request has in store for it. */
  lemma Ready(was: State, mid: State, ready: State, now: State, id: DiscordID, r: Replies, t: int)
    requires if id in was.entries then ready == was else SetsUp(r) && ready.Owns(id)
    requires id in mid.entries && id in ready.entries
    requires ready.entries[id].timestamp == mid.entries[id].timestamp
    requires Meets(FateOf(ready, id, r), ready, now, id, t)
    ensures Meets(FateOf(was, id, r), mid, now, id, t)
  {
  }

  ghost function Snapshot(r: Replies): seq<TransferItem> {
    if r.transfers.Some? then Ordered(Listed(r.transfers.value)) else []
  }

  /** The account handed to a user who is served. */
  ghost function ServedAccount(id: DiscordID, r: Replies): Account {
    if r.resync.Synced? then Account(RpcOfEntry(id), id, r.resync.balance, r.resync.unlocked, AddressOf(id))
    else Account(RpcOfEntry(id), id, 0, 0, NoAddress)
  }

  /** Only the user's own entry changed, or went, and only its own port. */
  ghost predicate OnlyEntryChanged(was: State, now: State, id: DiscordID) {
    && id in was.entries && now.launched == was.launched
    && (forall p :: p != was.entries[id].port ==> WalletOn(now.host, p) == WalletOn(was.host, p))
    && if id in now.entries then
         now.entries == was.entries[id := now.entries[id]] && now.entries[id].port == was.entries[id].port
       else now.entries == was.entries - {id}
  }

  lemma EntryChangesCompose(a: State, b: State, c: State, id: DiscordID)
    requires OnlyEntryChanged(a, b, id) && OnlyEntryChanged(b, c, id)
    ensures OnlyEntryChanged(a, c, id)
  {
  }

  /** There is an entry for id, by the rule of `Recency.Admit`; its account need
      not be set up yet. */
  ghost predicate Admitted(was: State, now: State, start: nat, limit: nat, id: DiscordID, launchTime: int) {
    && 0 < limit && id in now.entries && now.launched <= was.launched + 1
    && StampsOf(now.entries) == Admit(StampsOf(was.entries), limit, id, launchTime)
    && OthersKept(was, now, start, id)
    && Consistent(now.entries - {id})
    && now.PortsHold(start)
  }

  lemma ResidentIsAdmitted(was: State, start: nat, limit: nat, id: DiscordID, launchTime: int)
    requires 0 < limit && id in was.entries && Consistent(was.entries) && was.PortsHold(start)
    ensures Admitted(was, was, start, limit, id, launchTime) && OnlyEntryChanged(was, was, id)
  {
  }

  lemma ChangeKeepsPorts(mid: State, now: State, start: nat, id: DiscordID)
    requires OnlyEntryChanged(mid, now, id) && mid.PortsHold(start)
    ensures now.PortsHold(start)
  {
  }

  lemma ChangeKeepsOthers(was: State, mid: State, now: State, start: nat, id: DiscordID)
    requires OthersKept(was, mid, start, id) && OnlyEntryChanged(mid, now, id) && mid.PortsHold(start)
    ensures OthersKept(was, now, start, id)
  {
    forall k | k in now.entries && k != id
      ensures k in was.entries && now.entries[k] == was.entries[k]
      ensures start + now.launched <= PORTS ==>
                WalletOn(now.host, now.entries[k].port) == WalletOn(was.host, was.entries[k].port)
    {
      assert k in mid.entries && now.entries[k] == mid.entries[k];
    }
  }

  lemma ChangeIsConsistent(mid: State, now: State, id: DiscordID)
    requires OnlyEntryChanged(mid, now, id) && Consistent(mid.entries - {id})
    requires id in now.entries ==> EntryOpened(now.entries[id], id)
    ensures Consistent(now.entries)
  {
    forall k | k in now.entries && k != id
      ensures now.entries[k].account.discordID == k && now.entries[k].account.rpcPtr == RpcOfEntry(k)
    {
      assert k in mid.entries - {id} && now.entries[k] == mid.entries[k];
    }
  }

  lemma ChangeOfStamps(mid: State, now: State, id: DiscordID)
    requires OnlyEntryChanged(mid, now, id)
    ensures StampsOf(now.entries) ==
            if id in now.entries then StampsOf(mid.entries)[id := now.entries[id].timestamp]
            else StampsOf(mid.entries) - {id}
    ensures |now.entries| <= |mid.entries|
  {
    if id in now.entries {
      assert now.entries.Keys == mid.entries.Keys;
    } else {
      assert now.entries.Keys == mid.entries.Keys - {id};
    }
  }

  lemma StampsMayBecome(stamps: Stamps, mid: State, now: State, limit: nat, id: DiscordID, launchTime: int, t: int,
                        fate: Fate)
    requires 0 < limit && |stamps| <= limit && OnlyEntryChanged(mid, now, id) && Meets(fate, mid, now, id, t)
    requires StampsOf(mid.entries) == Admit(stamps, limit, id, launchTime)
    ensures |now.entries| <= limit
    ensures MayBecome(stamps, StampsOf(now.entries), limit, id, launchTime, t)
    ensures StampsOf(now.entries) == StampsAfter(fate, stamps, limit, id, launchTime, t)
  {
    ChangeOfStamps(mid, now, id);
    hide StampsOf, Recency.Admit, OnlyEntryChanged;
    Restamp(Admit(stamps, limit, id, launchTime), id);
  }

  lemma Restamp(stamps: Stamps, id: DiscordID)
    requires id in stamps
    ensures stamps[id := stamps[id]] == stamps
  {
  }

  /** A request that admits a user and then changes that user's entry alone keeps
      the pool in order and obeys the rule of `Recency.MayBecome`. */
  lemma Concludes(was: State, mid: State, now: State, start: nat, limit: nat, id: DiscordID, launchTime: int, t: int,
                  fate: Fate)
    requires 0 < limit && |was.entries| <= limit
    requires Admitted(was, mid, start, limit, id, launchTime) && OnlyEntryChanged(mid, now, id)
    requires (id in now.entries ==> EntryOpened(now.entries[id], id)) && Meets(fate, mid, now, id, t)
    ensures |now.entries| <= limit && Consistent(now.entries) && now.PortsHold(start)
    ensures OthersKept(was, now, start, id)
    ensures MayBecome(StampsOf(was.entries), StampsOf(now.entries), limit, id, launchTime, t)
    ensures StampsOf(now.entries) == StampsAfter(fate, StampsOf(was.entries), limit, id, launchTime, t)
  {
    hide Consistent, OthersKept, State.PortsHold, MayBecome, Touch, Recency.Admit, StampsOf, StampsAfter, Meets;
    ChangeKeepsPorts(mid, now, start, id);
    ChangeKeepsOthers(was, mid, now, start, id);
    ChangeIsConsistent(mid, now, id);
    StampsMayBecome(StampsOf(was.entries), mid, now, limit, id, launchTime, t, fate);
  }

  lemma NewStamps(entries: Entries, limit: nat, id: DiscordID, proc: RPCProc)
    requires id !in entries && |entries| < limit
    ensures StampsOf(entries[id := proc]) == Admit(StampsOf(entries), limit, id, proc.timestamp)
  {
    assert entries[id := proc].Keys == entries.Keys + {id};
  }

  lemma NewPorts(was: State, now: State, start: nat, id: DiscordID, proc: RPCProc)
    requires was.PortsHold(start) && id !in was.entries
    requires now == State(was.entries[id := proc], was.host[proc.port := None], was.launched + 1)
    requires start + now.launched <= PORTS ==> proc.port == start + was.launched
    ensures now.PortsHold(start)
  {
  }

  lemma NewKeepsOthers(was: State, now: State, start: nat, id: DiscordID, proc: RPCProc)
    requires id !in was.entries && was.PortsHold(start)
    requires now == State(was.entries[id := proc], was.host[proc.port := None], was.launched + 1)
    requires start + now.launched <= PORTS ==> proc.port == start + was.launched
    ensures OthersKept(was, now, start, id)
  {
  }

  lemma NewIsAdmitted(was: State, now: State, start: nat, limit: nat, id: DiscordID, proc: RPCProc)
    requires |was.entries| < limit && id !in was.entries
    requires Consistent(was.entries) && was.PortsHold(start)
    requires now == State(was.entries[id := proc], was.host[proc.port := None], was.launched + 1)
    requires start + now.launched <= PORTS ==> proc.port == start + was.launched
    ensures Admitted(was, now, start, limit, id, proc.timestamp)
  {
    hide Consistent, State.PortsHold, OthersKept, StampsOf, Recency.Admit;
    NewStamps(was.entries, limit, id, proc);
    NewKeepsOthers(was, now, start, id, proc);
    NewPorts(was, now, start, id, proc);
    assert now.entries - {id} == was.entries;
  }

  lemma ReusedStamps(entries: Entries, limit: nat, id: DiscordID, launchTime: int, o: DiscordID)
    requires id !in entries && |entries| == limit > 0 && o == Oldest(StampsOf(entries))
    ensures o in entries
    ensures StampsOf((entries - {o})[id := entries[o]]) == Admit(StampsOf(entries), limit, id, launchTime)
  {
    assert o in StampsOf(entries);
    MovedStamps(entries, o, id);
    hide StampsOf, IsOldest;
  }

  lemma MovedStamps(entries: Entries, o: DiscordID, id: DiscordID)
    requires o in entries && id !in entries
    ensures StampsOf((entries - {o})[id := entries[o]]) == Replace(StampsOf(entries), o, id)
  {
    var moved := StampsOf((entries - {o})[id := entries[o]]);
    var replaced := Replace(StampsOf(entries), o, id);
    hide Replace, StampsOf;
    assert moved.Keys == replaced.Keys;
  }

  lemma ReusedPorts(was: State, start: nat, o: DiscordID, id: DiscordID)
    requires was.PortsHold(start) && o in was.entries && id !in was.entries
    ensures was.(entries := (was.entries - {o})[id := was.entries[o]]).PortsHold(start)
  {
  }

  lemma ReusedKeepsOthers(was: State, start: nat, id: DiscordID, o: DiscordID)
    requires id !in was.entries && o in was.entries && Consistent(was.entries)
    ensures var now := was.(entries := (was.entries - {o})[id := was.entries[o]]);
            OthersKept(was, now, start, id) && Consistent(now.entries - {id})
  {
  }

  lemma ReusedIsAdmitted(was: State, now: State, start: nat, limit: nat, id: DiscordID, launchTime: int, o: DiscordID)
    requires id !in was.entries && |was.entries| == limit > 0 && o in was.entries && o == Oldest(StampsOf(was.entries))
    requires Consistent(was.entries) && was.PortsHold(start)
    requires now == was.(entries := (was.entries - {o})[id := was.entries[o]])
    ensures Admitted(was, now, start, limit, id, launchTime)
  {
    hide Consistent, State.PortsHold, OthersKept, StampsOf, Recency.Admit, IsOldest;
    ReusedStamps(was.entries, limit, id, launchTime, o);
    ReusedPorts(was, start, o, id);
    ReusedKeepsOthers(was, start, id, o);
  }

  /** What a process brings along when it is admitted for someone: the next port, or the
      port, the wallet and the history of the evicted user. */
  ghost predicate HasProcess(was: State, now: State, id: DiscordID, start: nat, limit: nat) {
    && id in now.entries && now.launched == was.launched + Launches(was, id, limit)
    && now.entries[id].port == PortAfter(was, id, start, limit)
    && now.entries[id].transactions == Inherited(was, limit)
    && WalletOn(now.host, now.entries[id].port) == InheritedWallet(was, limit)
    && now.host.Keys == PortsWithNew(was, id, start, limit)
  }

  lemma NewHasProcess(was: State, now: State, start: nat, limit: nat, id: DiscordID, proc: RPCProc)
    requires id !in was.entries && |was.entries| < limit
    requires now == State(was.entries[id := proc], was.host[proc.port := None], was.launched + 1)
    requires proc.port == PortNumber(start + was.launched) && proc.transactions == []
    ensures HasProcess(was, now, id, start, limit)
  {
    hide StampsOf;
  }

  lemma ReusedHasProcess(was: State, now: State, start: nat, limit: nat, id: DiscordID, o: DiscordID)
    requires id !in was.entries && |was.entries| == limit > 0 && o in was.entries && o == Oldest(StampsOf(was.entries))
    requires now == was.(entries := (was.entries - {o})[id := was.entries[o]])
    ensures HasProcess(was, now, id, start, limit)
  {
    hide StampsOf, IsOldest;
  }

  datatype StoreReply = Stored | PocoError | GeneralError

  /** How telling a user goes: a message may be refused after n were sent. */
  datatype SendReply = AllSent | DiscordErrorAfter(n: nat) | PocoErrorAfter(n: nat)

  datatype PollReply = GetTransfersFails | Lists(entries: seq<RpcEntry>, send: SendReply, store: StoreReply)

  /** What a search finds new for a user, and the part of it that the user is told. */
  datatype Report = Report(diff: seq<TransferItem>, sent: seq<TransferItem>) {
    /** The rest, which no later search finds again. */
    function Lost(): seq<TransferItem> {
      if |sent| <= |diff| then diff[|sent|..] else []
    }
  }

  /** A message is refused before all are sent. */
  predicate Breaks(diff: seq<TransferItem>, send: SendReply) {
    !send.AllSent? && send.n < |diff|
  }

  function Delivered(diff: seq<TransferItem>, send: SendReply): seq<TransferItem> {
    if Breaks(diff, send) then diff[..send.n] else diff
  }

  /** What each user's wallet answers to a search. */
  type Polls = DiscordID -> PollReply

  ghost function PolledEntry(was: RPCProc, entries: seq<RpcEntry>): RPCProc {
    was.(transactions := Ordered(Listed(entries)))
  }

  ghost function ReportOf(was: RPCProc, entries: seq<RpcEntry>): seq<TransferItem> {
    SetDifference(Ordered(Listed(entries)), was.transactions)
  }

  /** A poll takes the new history over. */
  ghost predicate Polled(was: RPCProc, now: RPCProc, entries: seq<RpcEntry>) {
    now == PolledEntry(was, entries)
  }

  /** The difference from the old history, if there is any, is found for the user, who is
      told of it up to the first message that is refused. */
  ghost predicate Told(was: RPCProc, entries: seq<RpcEntry>, send: SendReply, k: DiscordID,
                       reports: map<DiscordID, Report>)
  {
    var diff := ReportOf(was, entries);
    if diff == [] then k !in reports else k in reports && reports[k] == Report(diff, Delivered(diff, send))
  }

  /** The search for this user ends the round: its wallet does not list, or will not store
      after something new was found (and Poco did not refuse a message before that). */
  ghost predicate Stops(was: RPCProc, poll: PollReply) {
    match poll
    case GetTransfersFails => true
    case Lists(entries, send, store) =>
      var diff := ReportOf(was, entries);
      diff != [] && store == GeneralError && !(send.PocoErrorAfter? && Breaks(diff, send))
  }

  lemma AlwaysStops(was: RPCProc, poll: PollReply)
    requires poll.GetTransfersFails?
    ensures Stops(was, poll)
  {
  }

  /** How a round ends: at the first user in key order that stops it, or after all. */
  ghost predicate RoundEnds(was: Entries, polls: Polls, bot: DiscordID, polled: set<DiscordID>, completed: bool) {
    && (forall k :: k in polled ==> k in was && polls(k).Lists?)
    && if completed then polled == was.Keys - {bot} && forall k :: k in polled ==> !Stops(was[k], polls(k))
       else exists k :: k in was && k != bot && Stops(was[k], polls(k)) && (polls(k).Lists? <==> k in polled) &&
                        forall j :: j in was && j != bot && j != k ==>
                                      (j in polled <==> j < k) && (j < k ==> !Stops(was[j], polls(j)))
  }

  lemma RoundStopsAt(was: Entries, polls: Polls, bot: DiscordID, polled: set<DiscordID>, k: DiscordID,
                     rest: set<DiscordID>)
    requires k in rest && rest <= was.Keys && k != bot && Stops(was[k], polls(k))
    requires polled == was.Keys - rest - {bot} + (if polls(k).Lists? then {k} else {})
    requires forall j :: j in was && j !in rest ==> j < k
    requires forall j :: j in rest ==> k <= j
    requires forall j :: j in polled && j != k ==> polls(j).Lists? && !Stops(was[j], polls(j))
    ensures RoundEnds(was, polls, bot, polled, false)
  {
    hide Stops;
    assert k in was && polls(k) == polls(k);
  }

  lemma RoundGoesThrough(was: Entries, polls: Polls, bot: DiscordID, polled: set<DiscordID>)
    requires polled == was.Keys - {bot}
    requires forall j :: j in polled ==> polls(j).Lists? && !Stops(was[j], polls(j))
    ensures RoundEnds(was, polls, bot, polled, true)
  {
    hide Stops;
  }

  lemma AccountPolled(was: RPCProc, now: RPCProc, entries: seq<RpcEntry>, send: SendReply, k: DiscordID,
                      before: map<DiscordID, Report>, after: map<DiscordID, Report>)
    requires now == PolledEntry(was, entries) && k !in before
    requires var diff := ReportOf(was, entries);
             after == if diff == [] then before else before[k := Report(diff, Delivered(diff, send))]
    ensures Polled(was, now, entries) && Told(was, entries, send, k, after)
    ensures forall p, es, sr, j :: j != k ==> (Told(p, es, sr, j, after) <==> Told(p, es, sr, j, before))
  {
  }

  // ------------------------------------------------ whole runs

  /** What happens to the pool: a user is served, a wallet is restarted, or all
      wallets are searched for new transactions. */
  datatype Event =
    | Serve(request: Request, replies: Replies)
    | Restart(id: DiscordID, killed: bool, replies: Replies)
    | Search(polls: Polls)

  datatype Outcome =
    | Served(result: Result)
    | Restarted(ok: bool)
    | Searched(reports: map<DiscordID, Report>, polled: set<DiscordID>, completed: bool)

  ghost predicate ServedFrom(was: State, now: State, r: Request, replies: Replies, result: Result,
                             start: nat, limit: nat)
    requires 0 < limit
  {
    && OthersKept(was, now, start, r.id)
    && MayBecome(StampsOf(was.entries), StampsOf(now.entries), limit, r.id, r.launchTime, r.now)
    && (result.Ok? <==> was.Serves(r.id, replies))
    && (result.Ok? ==> && StampsOf(now.entries) == Touch(StampsOf(was.entries), limit, r.id, r.launchTime, r.now)
                       && now.Owns(r.id))
    && (was.Owns(r.id) ==> now.Owns(r.id))
    && StampsOf(now.entries) ==
       StampsAfter(FateOf(was, r.id, replies), StampsOf(was.entries), limit, r.id, r.launchTime, r.now)
    && (r.id in now.entries ==>
          && now.entries[r.id].transactions == HistoryAfter(was, r.id, replies, limit)
          && WalletOn(now.host, now.entries[r.id].port) == WalletAfter(was, r.id, replies, limit)
          && now.entries[r.id].port == PortAfter(was, r.id, start, limit))
    && now.launched == was.launched + Launches(was, r.id, limit)
    && ProcessesServed(was, now.host, r.id, replies, start, limit) && (was.PortsHold(start) ==> now.PortsHold(start))
  }

  /** The ports with a process, once a new user has one. */
  ghost function PortsWithNew(was: State, id: DiscordID, start: nat, limit: nat): set<nat> {
    was.host.Keys + if Launches(was, id, limit) == 1 then {PortNumber(start + was.launched)} else {}
  }

  /** A resident's request starts and ends no process, even if it costs the entry. */
  ghost predicate ProcessesServed(was: State, host: Host, id: DiscordID, r: Replies, start: nat, limit: nat) {
    if id in was.entries then host == was.host else
      ProcessesKept(PortsWithNew(was, id, start, limit), host.Keys, PortAfter(was, id, start, limit), Dies(id, r))
  }

  /** One process is launched, where there is room for someone new. */
  ghost function Launches(was: State, id: DiscordID, limit: nat): nat {
    if id !in was.entries && |was.entries| < limit then 1 else 0
  }

  /** The port that the n-th value of the 16-bit counter names. */
  ghost function PortNumber(n: nat): nat {
    n % PORTS
  }

  lemma PortNumberIsSmall(n: nat)
    requires n < PORTS
    ensures PortNumber(n) == n
  {
  }

  /** The port of a user who has asked: a resident's own, the next, or that of the evicted user. */
  ghost function PortAfter(was: State, id: DiscordID, start: nat, limit: nat): nat {
    if id in was.entries then was.entries[id].port
    else if |was.entries| < limit || was.entries == map[] then PortNumber(start + was.launched)
    else was.entries[Oldest(StampsOf(was.entries))].port
  }

  /** The wallet that a process has open when it is admitted for someone: none if it is
      new, that of the evicted user's process otherwise. */
  ghost function InheritedWallet(was: State, limit: nat): Option<DiscordID> {
    if |was.entries| < limit || was.entries == map[] then None
    else WalletOn(was.host, was.entries[Oldest(StampsOf(was.entries))].port)
  }

  /** The wallet open in the process of a user who has asked. */
  ghost function WalletAfter(was: State, id: DiscordID, r: Replies, limit: nat): Option<DiscordID> {
    if id in was.entries then WalletOn(was.host, was.entries[id].port)
    else OpenedWallet(InheritedWallet(was, limit), id, r)
  }

  /** The history a process brings along when it is admitted for someone: none if it is
      new, that of the evicted user otherwise. */
  ghost function Inherited(was: State, limit: nat): seq<TransferItem> {
    if |was.entries| < limit || was.entries == map[] then []
    else was.entries[Oldest(StampsOf(was.entries))].transactions
  }

  /** A resident's own, or the opening snapshot, or, when the setup fails before that,
      what the process brought along. */
  ghost function HistoryAfter(was: State, id: DiscordID, r: Replies, limit: nat): seq<TransferItem> {
    if id in was.entries then was.entries[id].transactions
    else if SetsUp(r) then Snapshot(r)
    else Inherited(was, limit)
  }

  /** A resident who stays keeps its history. */
  ghost predicate HistoryKept(was: State, now: State, id: DiscordID) {
    id in was.entries && id in now.entries ==> now.entries[id].transactions == was.entries[id].transactions
  }

  ghost predicate RestartedFrom(was: State, now: State, id: DiscordID, killed: bool, replies: Replies, ok: bool,
                                start: nat)
  {
    && OthersKept(was, now, start, id) && (was.PortsHold(start) ==> now.PortsHold(start))
    && if id !in was.entries then ok && now == was else
         Relaunched(was, now, id, killed, replies, ok)
  }

  /** What a restart makes of the user's entry and process. */
  ghost predicate Relaunched(was: State, now: State, id: DiscordID, killed: bool, replies: Replies, ok: bool)
    requires id in was.entries
  {
    && OnlyEntryChanged(was, now, id) && (ok <==> SetsUp(replies))
    && (id in now.entries <==> !Dies(id, replies))
    && ProcessesKept(was.host.Keys, now.host.Keys, was.entries[id].port, Dies(id, replies))
    && (id in now.entries ==>
          && now.entries[id].timestamp == was.entries[id].timestamp
          && now.entries[id].transactions == (if ok then Snapshot(replies) else was.entries[id].transactions)
          && WalletOn(now.host, now.entries[id].port) ==
             OpenedWallet(if killed then None else WalletOn(was.host, was.entries[id].port), id, replies))
  }

  ghost predicate SearchedFrom(was: State, now: State, polls: Polls, o: Outcome, bot: DiscordID)
    requires o.Searched?
  {
    && now == was.(entries := now.entries) && now.entries.Keys == was.entries.Keys
    && o.polled <= was.entries.Keys - {bot} && RoundEnds(was.entries, polls, bot, o.polled, o.completed)
    && (forall k :: k in was.entries && k !in o.polled ==> now.entries[k] == was.entries[k])
    && (forall k :: k in o.polled ==> SearchedUser(was.entries[k], now.entries[k], polls(k), k, o.reports))
  }

  /** A polled user is told the difference from the old history, which the new one replaces. */
  ghost predicate SearchedUser(was: RPCProc, now: RPCProc, poll: PollReply, k: DiscordID,
                               reports: map<DiscordID, Report>)
  {
    poll.Lists? && Polled(was, now, poll.entries) && Told(was, poll.entries, poll.send, k, reports)
  }

  lemma SearchIsSearched(was: State, now: State, polls: Polls, o: Outcome, bot: DiscordID)
    requires o.Searched? && now == was.(entries := now.entries) && now.entries.Keys == was.entries.Keys
    requires o.polled <= was.entries.Keys - {bot} && RoundEnds(was.entries, polls, bot, o.polled, o.completed)
    requires forall k :: k in was.entries && k !in o.polled ==> now.entries[k] == was.entries[k]
    requires forall k :: k in o.polled ==> polls(k).Lists? && Polled(was.entries[k], now.entries[k], polls(k).entries)
    requires forall k :: k in o.polled ==> Told(was.entries[k], polls(k).entries, polls(k).send, k, o.reports)
    ensures SearchedFrom(was, now, polls, o, bot)
  {
    hide Polled, Told;
  }

  /** A search changes histories alone. */
  lemma SearchKeepsUser(was: State, now: State, polls: Polls, o: Outcome, bot: DiscordID, k: DiscordID)
    requires o.Searched? && SearchedFrom(was, now, polls, o, bot) && k in was.entries
    ensures k in now.entries && now.entries[k] == was.entries[k].(transactions := now.entries[k].transactions)
  {
    if k in o.polled {
      assert SearchedUser(was.entries[k], now.entries[k], polls(k), k, o.reports);
    }
  }

  /** So it leaves ports, owners and stamps as they are. */
  lemma SearchKeepsOrder(was: State, now: State, start: nat, polls: Polls, o: Outcome, bot: DiscordID)
    requires o.Searched? && SearchedFrom(was, now, polls, o, bot)
    requires Consistent(was.entries) && was.PortsHold(start)
    ensures Consistent(now.entries) && now.PortsHold(start) && |now.entries| == |was.entries|
  {
    forall k | k in was.entries
      ensures now.entries[k] == was.entries[k].(transactions := now.entries[k].transactions)
    {
      SearchKeepsUser(was, now, polls, o, bot, k);
    }
    SearchKeepsKeys(was, now, polls, o, bot);
    hide SearchedFrom;
  }

  lemma SearchKeepsKeys(was: State, now: State, polls: Polls, o: Outcome, bot: DiscordID)
    requires o.Searched? && SearchedFrom(was, now, polls, o, bot)
    ensures now == was.(entries := now.entries) && now.entries.Keys == was.entries.Keys
    ensures |now.entries| == |was.entries|
  {
    hide SearchedUser;
    assert |now.entries.Keys| == |was.entries.Keys|;
  }

  ghost predicate Happens(was: State, now: State, e: Event, o: Outcome, start: nat, limit: nat, bot: DiscordID)
    requires 0 < limit
  {
    match e
    case Serve(r, replies) => o.Served? && ServedFrom(was, now, r, replies, o.result, start, limit)
    case Restart(id, killed, replies) => o.Restarted? && RestartedFrom(was, now, id, killed, replies, o.ok, start)
    case Search(polls) => o.Searched? && SearchedFrom(was, now, polls, o, bot)
  }

  /** What a run keeps constant. */
  datatype Setting = Setting(start: nat, limit: nat, bot: DiscordID)

  /** The states of a run, each reached from the one before by its event, whatever failed. */
  ghost predicate IsPoolRun(c: Setting, states: seq<State>, events: seq<Event>, outcomes: seq<Outcome>) {
    && 0 < c.limit && |states| == |events| + 1 && |outcomes| == |events|
    && forall i :: 0 <= i < |events| ==>
                     Happens(states[i], states[i + 1], events[i], outcomes[i], c.start, c.limit, c.bot)
  }

  lemma OneMoreEvent(c: Setting, states: seq<State>, events: seq<Event>, outcomes: seq<Outcome>,
                     now: State, e: Event, o: Outcome)
    requires IsPoolRun(c, states, events, outcomes)
    requires Happens(states[|events|], now, e, o, c.start, c.limit, c.bot)
    ensures IsPoolRun(c, states + [now], events + [e], outcomes + [o])
  {
    hide Happens;
  }

  // ------------------------------------------------ the pool

  method LeastKey(s: set<nat>) returns (k: nat)
    requires s != {}
    ensures k in s && forall j :: j in s ==> k <= j
  {
    k :| k in s;
    var rest := s - {k};
    while rest != {}
      invariant rest <= s && k in s && forall j :: j in s && j !in rest ==> k <= j
      decreases rest
    {
      var j :| j in rest;
      if j < k {
        k := j;
      }
      rest := rest - {j};
    }
  }

  class RPCManager {
    const startPort: nat
    const limit: nat
    const botID: DiscordID
    var rpcMap: Entries
    var currPortNum: nat
    var host: Host
    ghost var launched: nat

    ghost function Now(): State
      reads this
    {
      State(rpcMap, host, launched)
    }

    ghost predicate CounterInStep()
      reads this`currPortNum, this`launched
    {
      currPortNum == (startPort + launched) % PORTS
    }

    ghost predicate Inv()
      reads this
    {
      && startPort < PORTS && CounterInStep()
      && 0 < limit && |rpcMap| <= limit
      && Consistent(rpcMap)
      && Now().PortsHold(startPort)
    }

    constructor (startingPort: nat, maxRpcLimit: nat, bot: DiscordID)
      requires startingPort < PORTS && maxRpcLimit > 0
      ensures Inv() && rpcMap == map[] && host == map[] && launched == 0
      ensures startPort == startingPort && limit == maxRpcLimit && botID == bot
    {
      startPort, limit, botID := startingPort, maxRpcLimit, bot;
      rpcMap, currPortNum, host, launched := map[], startingPort, map[], 0;
    }

    /** Launches a process on the next port; the counter is 16 bits wide. */
    method SpinUpNewRPC(id: DiscordID, launchTime: int) returns (proc: RPCProc)
      requires Inv()
      modifies this`currPortNum, this`host, this`launched
      ensures CounterInStep() && launched == old(launched) + 1
      ensures proc == RPCProc(launchTime, old(currPortNum), Account(RpcOfLocal, id, 0, 0, NoAddress), [])
      ensures host == old(host)[proc.port := None]
      ensures startPort + launched <= PORTS ==> proc.port == startPort + old(launched)
    {
      var portNum := currPortNum;
      host := host[portNum := None];
      proc := RPCProc(launchTime, portNum, Account(RpcOfLocal, id, 0, 0, NoAddress), []);
      currPortNum := (currPortNum + 1) % PORTS;
      launched := launched + 1;
    }

    /** The first entry in key order whose stamp no other undercuts. */
    method FindOldestRPC() returns (oldest: DiscordID)
      requires |rpcMap| > 0
      ensures IsOldest(StampsOf(rpcMap), oldest)
    {
      var rest := rpcMap.Keys;
      assert rest != {};
      oldest := LeastKey(rest);
      rest := rest - {oldest};
      while rest != {}
        invariant rest <= rpcMap.Keys && oldest in rpcMap && oldest !in rest
        invariant forall k, j :: k in rpcMap && k !in rest && j in rest ==> k < j
        invariant forall k :: k in rpcMap && k !in rest ==>
                                rpcMap[oldest].timestamp < rpcMap[k].timestamp ||
                                (rpcMap[oldest].timestamp == rpcMap[k].timestamp && oldest <= k)
        decreases rest
      {
        var k := LeastKey(rest);
        if rpcMap[k].timestamp < rpcMap[oldest].timestamp {
          oldest := k;
        }
        rest := rest - {k};
      }
    }

    /** A new process for id, where there is room. */
    method AdmitNew(id: DiscordID, launchTime: int)
      requires Inv() && id !in rpcMap && |rpcMap| < limit
      modifies this
      ensures CounterInStep() && Admitted(old(Now()), Now(), startPort, limit, id, launchTime)
      ensures HasProcess(old(Now()), Now(), id, startPort, limit)
    {
      ghost var was := Now();
      hide Consistent, OthersKept, State.PortsHold, Admitted, StampsOf, HasProcess;
      var proc := SpinUpNewRPC(id, launchTime);
      rpcMap := rpcMap[id := proc];
      NewIsAdmitted(was, Now(), startPort, limit, id, proc);
      NewHasProcess(was, Now(), startPort, limit, id, proc);
    }

    /** The process of the oldest entry for id; the old entry is erased first, by its account's id. */
    method Reuse(id: DiscordID, ghost launchTime: int)
      requires Inv() && id !in rpcMap && |rpcMap| == limit
      modifies this`rpcMap
      ensures CounterInStep() && Admitted(old(Now()), Now(), startPort, limit, id, launchTime)
      ensures HasProcess(old(Now()), Now(), id, startPort, limit)
    {
      ghost var was := Now();
      assert Consistent(rpcMap);
      var oldest := FindOldestRPC();
      OldestUnique(StampsOf(rpcMap), oldest);
      assert rpcMap[oldest].account.discordID == oldest;
      hide Consistent, State.PortsHold, IsOldest, StampsOf, HasProcess, Admitted;
      var oldAcc := rpcMap[oldest];
      var oldAccID := oldAcc.account.discordID;
      rpcMap := rpcMap - {oldAccID};
      rpcMap := rpcMap[id := oldAcc];
      ReusedIsAdmitted(was, Now(), startPort, limit, id, launchTime, oldest);
      ReusedHasProcess(was, Now(), startPort, limit, id, oldest);
    }

    method MakeEntry(id: DiscordID, launchTime: int)
      requires Inv() && id !in rpcMap
      modifies this
      ensures CounterInStep() && Admitted(old(Now()), Now(), startPort, limit, id, launchTime)
      ensures HasProcess(old(Now()), Now(), id, startPort, limit)
    {
      hide Consistent, State.PortsHold, OthersKept, Admitted, StampsOf, HasProcess;
      if |rpcMap| < limit {
        AdmitNew(id, launchTime);
      } else {
        Reuse(id, launchTime);
      }
    }

    /** `Account::open`: whose account it is and which RPC it talks to. */
    method OpenAccount(id: DiscordID)
      requires id in rpcMap
      modifies this`rpcMap
      ensures rpcMap == old(rpcMap)[id := OpenedFor(old(rpcMap)[id], id)]
    {
      var account := rpcMap[id].account.(discordID := id, rpcPtr := RpcOfEntry(id));
      rpcMap := rpcMap[id := rpcMap[id].(account := account)];
    }

    /** Queries the process until it answers. If it never does, kills it and
        drops the entry, except for id 0; a kill that throws leaves both. */
    method WaitForRPCToRespond(id: DiscordID, reply: WaitReply) returns (ok: bool)
      requires id in rpcMap
      modifies this`rpcMap, this`host
      ensures ok <==> !reply.NeverResponds?
      ensures ok || id == 0 || reply.killThrows ==> rpcMap == old(rpcMap) && host == old(host)
      ensures !ok && id != 0 && !reply.killThrows ==>
                rpcMap == old(rpcMap) - {id} && host == old(host) - {old(rpcMap)[id].port}
    {
      if reply.NeverResponds? {
        if id != 0 {
          if reply.killThrows {
            return false;
          }
          host := host - {rpcMap[id].port};
          rpcMap := rpcMap - {id};
        }
        return false;
      }
      return true;
    }

    /** Sets up the account of an entry, waits for its process, opens the wallet and
        takes the opening snapshot: what `getAccount` and `restartWallet` share. */
    method SetUp(id: DiscordID, r: Replies) returns (ok: bool)
      requires id in rpcMap
      modifies this`rpcMap, this`host
      ensures OnlyEntryChanged(old(Now()), Now(), id) && (ok <==> SetsUp(r))
      ensures id in rpcMap ==> EntryOpened(rpcMap[id], id) && rpcMap[id].timestamp == old(rpcMap)[id].timestamp
      ensures ok ==> Now().Owns(id) && rpcMap[id] == OpenedFor(old(rpcMap)[id], id).(transactions := Snapshot(r))
      ensures id in rpcMap && !ok ==> rpcMap[id].transactions == old(rpcMap)[id].transactions
      ensures Opens(r) ==> Now().Owns(id)
      ensures id in rpcMap <==> !Dies(id, r)
      ensures ProcessesKept(old(host).Keys, host.Keys, old(rpcMap)[id].port, Dies(id, r))
      ensures var port := old(rpcMap)[id].port;
              id in rpcMap ==> WalletOn(host, port) == OpenedWallet(WalletOn(old(host), port), id, r)
    {
      var port := rpcMap[id].port;
      OpenAccount(id);
      ok := WaitForRPCToRespond(id, r.waiting);
      if !ok {
        return false;
      }
      match r.open {
        case OpenFails(leavesOpen) =>
          host := host[port := leavesOpen];
          return false;
        case OpenSucceeds =>
          host := host[port := Some(id)];
      }
      if r.transfers.None? {
        return false;
      }
      var history := ProcessList(r.transfers.value);
      rpcMap := rpcMap[id := rpcMap[id].(transactions := history)];
      return true;
    }

    /** `Account::resyncAccount`: balances first, then the address, which may fail on its own. */
    method ResyncAccount(id: DiscordID, reply: ResyncReply) returns (ok: bool)
      requires id in rpcMap
      modifies this`rpcMap
      ensures ok <==> reply.Synced? && WalletOn(host, old(rpcMap)[id].port).Some?
      ensures id in rpcMap && rpcMap == old(rpcMap)[id := old(rpcMap)[id].(account := rpcMap[id].account)]
      ensures rpcMap[id].account.discordID == old(rpcMap)[id].account.discordID
      ensures rpcMap[id].account.rpcPtr == old(rpcMap)[id].account.rpcPtr
      ensures ok ==> && rpcMap[id].account.balance == reply.balance
                     && rpcMap[id].account.unlockedBalance == reply.unlocked
                     && rpcMap[id].account.myAddress == AddressOf(WalletOn(host, old(rpcMap)[id].port).value)
      ensures reply.ResyncFails? ==> rpcMap == old(rpcMap)
      ensures !reply.ResyncFails? && !ok ==>
                rpcMap[id].account ==
                old(rpcMap)[id].account.(balance := reply.balance, unlockedBalance := reply.unlocked)
    {
      var account := rpcMap[id].account;
      if reply.ResyncFails? {
        return false;
      }
      account := account.(balance := reply.balance, unlockedBalance := reply.unlocked);
      rpcMap := rpcMap[id := rpcMap[id].(account := account)];
      var wallet := WalletOn(host, rpcMap[id].port);
      if reply.AddressFails? || wallet.None? {
        return false;
      }
      account := account.(myAddress := AddressOf(wallet.value));
      rpcMap := rpcMap[id := rpcMap[id].(account := account)];
      return true;
    }

    /** The second half of `getAccount`: whose wallet is it, stamp, resync. */
    method CheckOwner(id: DiscordID, now: int, r: Replies) returns (result: Result)
      requires id in rpcMap && EntryOpened(rpcMap[id], id)
      modifies this`rpcMap
      ensures OnlyEntryChanged(old(Now()), Now(), id)
      ensures id in rpcMap ==> EntryOpened(rpcMap[id], id)
      ensures Meets(FateOf(old(Now()), id, r), old(Now()), Now(), id, now)
      ensures result.Ok? <==> old(Now().Owns(id)) && r.addressAnswers && r.resync.Synced?
      ensures old(Now().Owns(id)) ==> Now().Owns(id)
      ensures HistoryKept(old(Now()), Now(), id)
      ensures result.Ok? ==> Now().Owns(id) && result.account == ServedAccount(id, r) &&
                             rpcMap[id] == old(rpcMap)[id].(timestamp := now, account := result.account)
    {
      var wallet := WalletOn(host, rpcMap[id].port);
      if !r.addressAnswers || wallet.None? {
        return Thrown;
      }
      if AddressOf(id) != AddressOf(wallet.value) {
        rpcMap := rpcMap - {id};
        return Thrown;
      }
      rpcMap := rpcMap[id := rpcMap[id].(timestamp := now)];
      var ok := ResyncAccount(id, r.resync);
      result := if ok then Ok(rpcMap[id].account) else Thrown;
    }

    /** Serves a user: reuses or makes its entry, checks that the process has the
        user's own wallet open, stamps the entry and refreshes the balances. */
    method GetAccount(id: DiscordID, launchTime: int, now: int, r: Replies) returns (result: Result)
      requires Inv()
      modifies this
      ensures Inv() && OthersKept(old(Now()), Now(), startPort, id)
      ensures MayBecome(StampsOf(old(rpcMap)), StampsOf(rpcMap), limit, id, launchTime, now)
      ensures launched == old(launched) + Launches(old(Now()), id, limit)
      ensures id in rpcMap ==> rpcMap[id].port == PortAfter(old(Now()), id, startPort, limit)
      ensures ProcessesServed(old(Now()), host, id, r, startPort, limit)
      ensures result.Ok? <==> old(Now()).Serves(id, r)
      ensures result.Ok? ==> && StampsOf(rpcMap) == Touch(StampsOf(old(rpcMap)), limit, id, launchTime, now)
                             && Now().Owns(id) && result.account == rpcMap[id].account == ServedAccount(id, r)
      ensures id in rpcMap ==> rpcMap[id].transactions == HistoryAfter(old(Now()), id, r, limit)
      ensures old(Now().Owns(id)) || (id !in old(rpcMap) && Opens(r)) ==> Now().Owns(id)
      ensures StampsOf(rpcMap) ==
              StampsAfter(FateOf(old(Now()), id, r), StampsOf(old(rpcMap)), limit, id, launchTime, now)
      ensures id in rpcMap ==> WalletOn(host, rpcMap[id].port) == WalletAfter(old(Now()), id, r, limit)
    {
      ghost var was := Now();
      hide Consistent, OthersKept, State.PortsHold, Recency.Admit, Admitted, MayBecome, Touch, OnlyEntryChanged;
      hide PortAfter, Launches, HistoryAfter, WalletAfter, ProcessesServed;
      var ok; ghost var mid;
      ok, mid := MakeReady(id, launchTime, r);
      if !ok {
        NotReady(was, mid, Now(), id, r, now);
        hide FateOf, Meets, StampsAfter;
        Concludes(was, mid, Now(), startPort, limit, id, launchTime, now, FateOf(was, id, r));
        return Thrown;
      }
      ghost var ready := Now();
      result := CheckOwner(id, now, r);
      Ready(was, mid, ready, Now(), id, r, now);
      EntryChangesCompose(mid, ready, Now(), id);
      hide FateOf, Meets;
      Concludes(was, mid, Now(), startPort, limit, id, launchTime, now, FateOf(was, id, r));
    }

    /** The first half of `getAccount`: an entry for id, set up if it is new. */
    method MakeReady(id: DiscordID, launchTime: int, r: Replies) returns (ok: bool, ghost mid: State)
      requires Inv()
      modifies this
      ensures CounterInStep() && Admitted(old(Now()), mid, startPort, limit, id, launchTime)
      ensures OnlyEntryChanged(mid, Now(), id) && launched == old(launched) + Launches(old(Now()), id, limit)
      ensures id in rpcMap ==> rpcMap[id].port == PortAfter(old(Now()), id, startPort, limit)
      ensures id in mid.entries
      ensures id in rpcMap ==> EntryOpened(rpcMap[id], id) && rpcMap[id].timestamp == mid.entries[id].timestamp
      ensures ok <==> id in old(rpcMap) || SetsUp(r)
      ensures ok ==> id in rpcMap
      ensures if id in old(rpcMap) then Now() == old(Now()) else ok ==> Now().Owns(id)
      ensures id in rpcMap ==> rpcMap[id].transactions == HistoryAfter(old(Now()), id, r, limit)
      ensures id !in old(rpcMap) && Opens(r) ==> Now().Owns(id)
      ensures id in rpcMap <==> id in old(rpcMap) || !Dies(id, r)
      ensures ProcessesServed(old(Now()), host, id, r, startPort, limit)
      ensures id in rpcMap ==> WalletOn(host, rpcMap[id].port) == WalletAfter(old(Now()), id, r, limit)
    {
      ghost var was := Now();
      mid := was;
      ok := true;
      assert id in rpcMap ==> EntryOpened(rpcMap[id], id);
      hide Consistent, OthersKept, State.PortsHold, Admitted, OnlyEntryChanged, SetsUp, EntryOpened;
      if id !in rpcMap {
        MakeEntry(id, launchTime);
        mid := Now();
        ok := SetUp(id, r);
      } else {
        ResidentIsAdmitted(was, startPort, limit, id, launchTime);
      }
    }

    /** Kills and relaunches the process of a resident user on the same port and
        sets the entry up again; a kill that fails leaves the old process there. */
    method RestartWallet(id: DiscordID, killed: bool, r: Replies) returns (ok: bool)
      requires Inv()
      modifies this`rpcMap, this`host
      ensures Inv() && OthersKept(old(Now()), Now(), startPort, id)
      ensures if id in old(rpcMap) then Relaunched(old(Now()), Now(), id, killed, r, ok)
              else ok && Now() == old(Now())
    {
      ghost var was := Now();
      hide Consistent, OthersKept, State.PortsHold, MayBecome, Admitted, StampsAfter, StampsOf;
      ok := true;
      if id in rpcMap {
        ok := Relaunch(id, killed, r);
        ResidentIsAdmitted(was, startPort, limit, id, 0);
        Concludes(was, was, Now(), startPort, limit, id, 0, was.entries[id].timestamp,
                  if id in rpcMap then Unstamped else Dropped);
      } else {
        NothingChanged(was, startPort, id);
      }
    }

    method Relaunch(id: DiscordID, killed: bool, r: Replies) returns (ok: bool)
      requires id in rpcMap
      modifies this`rpcMap, this`host
      ensures Relaunched(old(Now()), Now(), id, killed, r, ok)
      ensures id in rpcMap ==> EntryOpened(rpcMap[id], id)
    {
      ghost var was := Now();
      if killed {
        host := host[rpcMap[id].port := None];
      }
      ghost var again := Now();
      ok := SetUp(id, r);
      EntryChangesCompose(was, again, Now(), id);
      hide OnlyEntryChanged, SetsUp, Snapshot, Dies;
      RelaunchKeeps(was.host.Keys, again.host.Keys, host.Keys, was.entries[id].port, Dies(id, r));
    }

    /** Polls one account: takes the new history over and puts the difference in
        front of what `diff` holds. */
    method PollAccount(k: DiscordID, entries: seq<RpcEntry>, diff: seq<TransferItem>) returns (all: seq<TransferItem>)
      requires k in rpcMap
      modifies this`rpcMap
      ensures rpcMap == old(rpcMap)[k := PolledEntry(old(rpcMap)[k], entries)]
      ensures all == ReportOf(old(rpcMap)[k], entries) + diff
      ensures diff == [] ==> all == ReportOf(old(rpcMap)[k], entries)
    {
      var newTransactions := ProcessList(entries);
      all := SetDifference(newTransactions, rpcMap[k].transactions) + diff;
      rpcMap := rpcMap[k := rpcMap[k].(transactions := newTransactions)];
    }

    /** Tells a user of the new transactions, one by one, until a message is refused. */
    method Notify(diff: seq<TransferItem>, send: SendReply) returns (sent: seq<TransferItem>)
      ensures sent == Delivered(diff, send)
      ensures if send.AllSent? || send.n >= |diff| then sent == diff else |sent| == send.n && sent <= diff
    {
      sent := [];
      for i := 0 to |diff|
        invariant sent == diff[..i] && (!send.AllSent? ==> i <= send.n)
      {
        if !send.AllSent? && send.n == i {
          return;
        }
        sent := sent + [diff[i]];
      }
    }

    /** The search for one user: the history is replaced before anything is sent, and a
        refused message ends only the telling of this user. */
    method SearchUser(k: DiscordID, poll: PollReply, reports: map<DiscordID, Report>)
      returns (more: map<DiscordID, Report>, stored: bool)
      requires k in rpcMap && poll.Lists? && k !in reports
      modifies this`rpcMap
      ensures rpcMap.Keys == old(rpcMap).Keys && more.Keys <= reports.Keys + {k}
      ensures forall j :: j in rpcMap && j != k ==> rpcMap[j] == old(rpcMap)[j]
      ensures Polled(old(rpcMap)[k], rpcMap[k], poll.entries)
      ensures Told(old(rpcMap)[k], poll.entries, poll.send, k, more)
      ensures forall p, es, sr, j :: j != k ==> (Told(p, es, sr, j, more) <==> Told(p, es, sr, j, reports))
      ensures stored <==> !Stops(old(rpcMap)[k], poll)
    {
      hide Polled, Told;
      more, stored := reports, true;
      var diff := PollAccount(k, poll.entries, []);
      if diff != [] {
        var sent := Notify(diff, poll.send);
        more := more[k := Report(diff, sent)];
        stored := poll.store != GeneralError || (poll.send.PocoErrorAfter? && |sent| < |diff|);
      }
      AccountPolled(old(rpcMap)[k], rpcMap[k], poll.entries, poll.send, k, reports, more);
    }

    /** One round of the search for new transactions, in key order, leaving out the
        bot's own entry. A failing call ends the round. */
    method ProcessNewTransactions(polls: Polls)
      returns (reports: map<DiscordID, Report>, ghost polled: set<DiscordID>, completed: bool)
      modifies this`rpcMap
      ensures rpcMap.Keys == old(rpcMap).Keys && polled <= rpcMap.Keys - {botID} && reports.Keys <= polled
      ensures forall k :: k in polled ==> polls(k).Lists? && Polled(old(rpcMap)[k], rpcMap[k], polls(k).entries)
      ensures forall k :: k in polled ==> Told(old(rpcMap)[k], polls(k).entries, polls(k).send, k, reports)
      ensures forall k :: k in rpcMap && k !in polled ==> rpcMap[k] == old(rpcMap)[k]
      ensures completed ==> polled == rpcMap.Keys - {botID}
      ensures RoundEnds(old(rpcMap), polls, botID, polled, completed)
    {
      hide Polled, Told, Stops, RoundEnds;
      reports, polled, completed := map[], {}, true;
      var rest := rpcMap.Keys;
      while rest != {}
        invariant rpcMap.Keys == old(rpcMap).Keys && rest <= rpcMap.Keys
        invariant polled == rpcMap.Keys - rest - {botID} && reports.Keys <= polled
        invariant forall j, k :: j in rpcMap && j !in rest && k in rest ==> j < k
        invariant forall k :: k in polled ==> polls(k).Lists? && Polled(old(rpcMap)[k], rpcMap[k], polls(k).entries)
        invariant forall k :: k in polled ==> Told(old(rpcMap)[k], polls(k).entries, polls(k).send, k, reports)
        invariant forall k :: k in rpcMap && k !in polled ==> rpcMap[k] == old(rpcMap)[k]
        invariant forall k :: k in polled ==> !Stops(old(rpcMap)[k], polls(k))
        decreases rest
      {
        var k := LeastKey(rest);
        if k != botID {
          if polls(k).GetTransfersFails? {
            AlwaysStops(rpcMap[k], polls(k));
            RoundStopsAt(old(rpcMap), polls, botID, polled, k, rest);
            return reports, polled, false;
          }
          var stored;
          reports, stored := SearchUser(k, polls(k), reports);
          polled := polled + {k};
          if !stored {
            RoundStopsAt(old(rpcMap), polls, botID, polled, k, rest);
            return reports, polled, false;
          }
        }
        rest := rest - {k};
      }
      RoundGoesThrough(old(rpcMap), polls, botID, polled);
    }

    /** Any run of events, as the dispatcher and the timers bring them: a thrown
        exception is logged and the next event follows. */
    method Run(events: seq<Event>) returns (ghost outcomes: seq<Outcome>, ghost states: seq<State>)
      requires Inv()
      modifies this
      ensures Inv() && IsPoolRun(Setting(startPort, limit, botID), states, events, outcomes)
      ensures states[0] == old(Now()) && states[|events|] == Now()
    {
      hide Consistent, OthersKept, State.PortsHold, Happens;
      ghost var c := Setting(startPort, limit, botID);
      outcomes, states := [], [Now()];
      for i := 0 to |events|
        invariant Inv() && IsPoolRun(c, states, events[..i], outcomes)
        invariant states[0] == old(Now()) && states[i] == Now()
      {
        ghost var outcome := Handle(events[i]);
        OneMoreEvent(c, states, events[..i], outcomes, Now(), events[i], outcome);
        assert events[..i] + [events[i]] == events[..i + 1];
        outcomes, states := outcomes + [outcome], states + [Now()];
      }
      assert events[..|events|] == events;
    }

    method Handle(e: Event) returns (ghost outcome: Outcome)
      requires Inv()
      modifies this
      ensures Inv() && Happens(old(Now()), Now(), e, outcome, startPort, limit, botID)
    {
      hide Consistent, OthersKept, State.PortsHold, MayBecome, Touch, State.Serves, StampsOf, OnlyEntryChanged;
      ghost var was := Now();
      match e {
        case Serve(r, replies) =>
          var result := GetAccount(r.id, r.launchTime, r.now, replies);
          outcome := Served(result);
        case Restart(id, killed, replies) =>
          var ok := RestartWallet(id, killed, replies);
          outcome := Restarted(ok);
        case Search(polls) =>
          var reports, completed; ghost var polled;
          reports, polled, completed := ProcessNewTransactions(polls);
          outcome := Searched(reports, polled, completed);
          SearchIsSearched(was, Now(), polls, outcome, botID);
          SearchKeepsOrder(was, Now(), startPort, polls, outcome, botID);
      }
    }
  }
}
